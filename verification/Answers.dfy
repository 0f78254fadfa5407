/**
  What a caller of the attempt store is told and what is then committed, said by the last committed snapshot of its
  target, the arguments and the lock files alone: nothing here looks at how the store decides.
 */
module Answers {
  import opened Wrappers
  import opened Records
  import opened Durable
  import opened Protocol
  import opened Commit
  import opened Leases
  import opened Operations
  import opened RecoveryNames
  import opened Effects
  import opened Decisions
  import opened Growth
  import opened Crash
  import opened Acceptance
  import opened Publication
  import opened Refinement
  import opened StoreRuns
  import opened Safety

  // ------------------------------------------------------ what is looked at

  /** The body of the last committed snapshot of a target. */
  function Head(d: Disk, t: Target): Option<Body> {
    if t in LastCommitted(d) then Some(LastCommitted(d)[t].snapshot.body) else None
  }

  function HeadOwner(d: Disk, t: Target): Option<Token> {
    if Head(d, t).Some? then Head(d, t).value.owner else None
  }

  /** The plain map moved by one snapshot with this body. */
  predicate Moves(d: Disk, d': Disk, t: Target, body: Body) {
    && Head(d', t) == Some(body)
    && LastCommitted(d') == LastCommitted(d)[t := LastCommitted(d')[t]]
  }

  /** Nothing was committed, and the store does not count itself as having changed anything. */
  predicate Idle(v: View, v': View) {
    LastCommitted(v'.disk) == LastCommitted(v.disk) && v'.mutated == v.mutated
  }

  /** The store has the lease the last snapshot names, on an open handle. */
  predicate Guarded(l: Locks, t: Target, owner: Option<Token>) {
    && t in l.leases && owner == Some(l.leases[t].token)
    && t in l.held && l.held[t] == l.leases[t].handle
  }

  /** The lock of the target is to be had: it is the store's own, free, or held in its process and may be fenced. */
  predicate Claimable(l: Locks, t: Target, owner: Option<Token>, fence: bool) {
    if t in l.leases then owner == Some(l.leases[t].token)
    else t !in l.held || (fence && t in l.table && l.table[t].handle == l.held[t])
  }

  /** The store gave its lease back, and the lock file with it unless another store has it by now. */
  predicate Freed(l: Locks, l': Locks, t: Target) {
    && t !in l'.leases
    && l'.held == (if t in l.leases && t in l.held && l.held[t] != l.leases[t].handle then l.held else l.held - {t})
  }

  lemma SettleMeans(l: Locks, t: Target, owner: Option<Token>, mode: LeaseMode)
    ensures var (l', grant) := Settle(l, t, owner, mode);
            && (grant.Denied? <==> if mode.Require? then !Guarded(l, t, owner) else !Claimable(l, t, owner, mode.fence))
            && (mode.Require? ==> l' == l)
            && (grant.Kept? ==>
                  l' == l && t in l.leases && owner == Some(grant.token) && grant.token == l.leases[t].token)
            && (grant.Granted? ==> mode.Claim? && t !in l.leases && Guarded(l', t, Some(grant.token)))
            && (!grant.Denied? && mode.Claim? ==> (grant.Kept? <==> t in l.leases))
            && (!grant.Denied? ==> Freed(l, Release(l', t), t))
  {
  }

  // ---------------------------------------------------- one call, taken apart

  function Needed(step: Step): nat {
    |step.before| + if !step.snapshot then 1 else if step.makesFolder then 4 else 3
  }

  /** Where a step ends, by its lease, its early files, its blocking fault and the writes that still succeed. */
  ghost predicate Carried(v: View, v': View, t: Target, step: Step, answer: Reply, reply: Reply) {
    var owner := HeadOwner(v.disk, t);
    var (l, grant) := Settle(v.locks, t, owner, step.mode);
    if grant.Denied? then reply == Raised(Busy) && Idle(v, v')
    else if grant.Kept? && step.mode.Claim? && step.mode.adopt then
      reply == answer && Idle(v, v') && v'.disk == v.disk && v'.locks == v.locks && v'.quota == v.quota
    else if v.quota < |step.before| then reply == Raised(Interrupted) && Idle(v, v')
    else if step.blocked.Some? then reply == Raised(step.blocked.value) && Idle(v, v')
    else if v.quota < Needed(step) then reply == Raised(Interrupted) && Idle(v, v')
    else
      && reply == answer && v'.quota == v.quota - Needed(step) && v'.mutated == (v.mutated || step.snapshot)
      && (if step.snapshot then Moves(v.disk, v'.disk, t, Owned(step.body, step.owner, grant.token))
          else LastCommitted(v'.disk) == LastCommitted(v.disk))
      && v'.locks == (if step.owner.ClearOwner? then Release(l, t) else l)
  }

  lemma AppendedMoves(d: Disk, d': Disk, t: Target, body: Body)
    requires Appended(d, d', t, body)
    ensures Moves(d, d', t, body)
  {
    hide MayFollow;
    AppendedMap(d, d', t, body);
  }

  lemma OwnerAtHead(d: Disk, t: Target)
    requires Accepts(d) && ChainsRecorded(d)
    ensures StateAt(d, t).Some? <==> Head(d, t).Some?
    ensures StateAt(d, t).Some? ==> StateAt(d, t).value.snapshot.body == Head(d, t).value
    ensures OwnerOf(d, t) == HeadOwner(d, t)
    ensures Head(d, t).Some? ==> t in d.folders && Shape(Head(d, t).value) && Head(d, t).value.target == t
  {
    hide Accepts;
    AcceptedIsLastCommitted(d);
    if StateAt(d, t).Some? {
      AcceptedState(d, t);
    }
  }

  lemma FinalCount(m: Manifest, t: Target, step: Step, token: Token)
    ensures |step.before| + |FinalWrites(m, t, step, token)| == Needed(step)
  {
  }

  lemma Outcomes(v: View, t: Target, expected: Option<Token>, step: Step)
    requires v.disk.manifest.Some?
    ensures var (v', out) := Execute(v, t, expected, step);
            var (l, grant) := Settle(v.locks, t, expected, step.mode);
            && (!out.Finished? ==> v'.mutated == v.mutated)
            && if grant.Denied? then out == Stopped(Busy)
               else if grant.Kept? && step.mode.Claim? && step.mode.adopt then out.Adopted? && v' == v.(locks := l)
               else if v.quota < |step.before| then out == Stopped(Interrupted)
               else if step.blocked.Some? then out == Stopped(step.blocked.value)
               else if v.quota < Needed(step) then out == Stopped(Interrupted)
               else
                 && out.Finished? && v'.quota == v.quota - Needed(step)
                 && v'.mutated == (v.mutated || step.snapshot)
                 && v'.locks == (if step.owner.ClearOwner? then Release(l, t) else l)
  {
    hide Settle;
    hide ApplyAll;
    hide Release;
    var (l, grant) := Settle(v.locks, t, expected, step.mode);
    if !grant.Denied? {
      FinalCount(v.disk.manifest.value, t, step, grant.token);
    }
    hide FinalWrites;
  }

  lemma StepIsCarried(v: View, t: Target, step: Step, answer: Reply)
    requires v.disk.manifest.Some? && LawfulStep(ChainOf(v.disk.manifest.value, t), t, step)
    ensures var (v', out) := Execute(v, t, HeadOwner(v.disk, t), step);
            Carried(v, v', t, step, answer, Concluded(out, answer, answer))
  {
    hide Execute;
    hide LawfulStep;
    hide Moves;
    hide ApplyAll;
    hide Release;
    hide Appended;
    hide HeadOwner;
    hide LastCommitted;
    hide Owned;
    hide Acquire;
    hide Holds;
    var owner := HeadOwner(v.disk, t);
    Outcomes(v, t, owner, step);
    ExecuteEffect(v, t, owner, step);
    SettleMeans(v.locks, t, owner, step.mode);
    var (v', out) := Execute(v, t, owner, step);
    if out.Finished? && step.snapshot {
      AppendedMoves(v.disk, v'.disk, t, Owned(step.body, step.owner, TokenFor(v, t, owner, step)));
    } else {
      SameChainsSameMap(v.disk, v'.disk);
    }
  }

  /** A whole call, by what it decides. */
  lemma DecidedCarried(v: View, op: Operation, note: string)
    requires v.disk.manifest.Some? && Accepts(v.disk) && ChainsRecorded(v.disk) && (OnExistingState(op) || op.Prepare?)
    ensures var (v', reply) := Perform(v, op, note);
            match Decide(op, note, v.disk)
            case Refuse(fault) => reply == Raised(fault) && Idle(v, v')
            case Answer(answer) => reply == answer && Idle(v, v')
            case Advance(step, answer) => Carried(v, v', op.target, step, answer, reply)
  {
    hide Accepts;
    hide Decide;
    hide Execute;
    hide ChainsRecorded;
    hide LawfulStep;
    hide Carried;
    hide OwnerOf;
    hide HeadOwner;
    LoadAccepted(v);
    var v1 := Load(v).0;
    OwnerAtHead(v.disk, op.target);
    var verdict := Decide(op, note, v.disk);
    if verdict.Advance? {
      var step, answer := verdict.step, verdict.reply;
      DecisionIsLawful(op, note, v.disk);
      StepIsCarried(v1, op.target, step, answer);
      var (v', out) := Execute(v1, op.target, HeadOwner(v1.disk, op.target), step);
      CarriedFrom(v, v1, v', op.target, step, answer, Concluded(out, answer, answer));
    }
  }

  lemma CarriedFrom(v: View, v1: View, v': View, t: Target, step: Step, answer: Reply, reply: Reply)
    requires v1.disk == v.disk && v1.quota == v.quota && v1.locks == v.locks && v1.mutated == v.mutated
    requires Carried(v1, v', t, step, answer, reply)
    ensures Carried(v, v', t, step, answer, reply)
  {
    hide Settle;
    hide Moves;
  }

  // ---------------------------------------------------------------- prepare

  /** The target rests at this status, prepared under the same identity. */
  predicate Rests(h: Option<Body>, identity: Identity, status: Status) {
    h.Some? && h.value.identity == identity && h.value.status == status
  }

  /** An executor may be told to run attempt `n` of this target. */
  predicate MayRun(h: Option<Body>, identity: Identity, due: bool, n: int) {
    if h.None? then n == 1
    else
      && h.value.identity == identity
      && (if h.value.status == RetryScheduled then due && n == h.value.nextAttempt
          else n == h.value.attempt && (Runs(h.value, n) || Checkpointed(h.value, n)))
  }

  /** A running attempt that crossed its boundary: nobody knows whether its effect happened. */
  predicate Unknown(h: Option<Body>, identity: Identity) {
    h.Some? && h.value.identity == identity && Crossed(h.value, h.value.attempt)
  }

  /** The lease is this store's already and nothing is written again. */
  predicate Adopts(l: Locks, h: Option<Body>, t: Target) {
    h.Some? && h.value.status == Running && t in l.leases
  }

  /** What is answered without a lease. */
  ghost predicate PrepareKnows(v: View, t: Target, identity: Identity, due: bool, reply: Reply) {
    var h := Head(v.disk, t);
    && (reply == Raised(Refused) <==> h.Some? && h.value.identity != identity)
    && (reply == AlreadyCompleted <==> Rests(h, identity, Completed))
    && (reply == AlreadyFailed <==> Rests(h, identity, Failed))
    && (reply == Pending <==> Rests(h, identity, RetryScheduled) && !due)
    && (forall c :: reply == Ready(c) <==> Rests(h, identity, SuccessCandidate) && h.value.candidate == Some(c))
    && reply != Raised(Untrusted) && reply != Raised(Stale) && reply != Done
  }

  /** What is answered for an attempt that may run, or that may not because of its boundary. */
  ghost predicate PrepareRuns(v: View, t: Target, identity: Identity, due: bool, reply: Reply) {
    var h := Head(v.disk, t);
    var owner := HeadOwner(v.disk, t);
    && (forall n :: reply == Raised(AmbiguousAttempt(n)) <==>
          && h.Some? && n == h.value.attempt
          && (|| Rests(h, identity, Ambiguous)
              || (Unknown(h, identity) && Claimable(v.locks, t, owner, true) && v.quota >= 3)))
    && (forall n :: reply == Proceed(n) <==>
          && MayRun(h, identity, due, n) && Claimable(v.locks, t, owner, false)
          && (v.quota >= 4 || Adopts(v.locks, h, t)))
    && (reply == Raised(Busy) <==>
          if Unknown(h, identity) then !Claimable(v.locks, t, owner, true)
          else (exists n :: MayRun(h, identity, due, n)) && !Claimable(v.locks, t, owner, false))
  }

  ghost predicate PrepareTells(v: View, t: Target, identity: Identity, due: bool, reply: Reply) {
    PrepareKnows(v, t, identity, due, reply) && PrepareRuns(v, t, identity, due, reply)
  }

  /** What a call of `prepare` commits: the fresh attempt, the ambiguity it found, or nothing. */
  ghost predicate PrepareCommits(v: View, v': View, t: Target, identity: Identity, note: string, reply: Reply) {
    var h := Head(v.disk, t);
    if reply.Proceed? && !Adopts(v.locks, h, t) then
      exists token ::
        && Moves(v.disk, v'.disk, t, Body(t, reply.attempt, Running, false, Some(token), identity, 0, None, None, None,
                                          false, note))
        && Guarded(v'.locks, t, Some(token))
    else if reply.Raised? && reply.fault.AmbiguousAttempt? && Unknown(h, identity) then
      && Moves(v.disk, v'.disk, t, h.value.(status := Ambiguous, owner := None, note := note))
      && Freed(v.locks, v'.locks, t)
    else Idle(v, v')
  }

  lemma PrepareKnown(v: View, t: Target, identity: Identity, due: bool, note: string)
    requires v.disk.manifest.Some? && Accepts(v.disk) && ChainsRecorded(v.disk)
    ensures var (v', reply) := Perform(v, Prepare(t, identity, due), note);
            PrepareKnows(v, t, identity, due, reply)
  {
    hide Accepts;
    hide ChainsRecorded;
    hide Perform;
    hide Settle;
    hide Release;
    hide Guarded;
    hide Claimable;
    hide Freed;
    hide LastCommitted;
    hide ApplyAll;
    hide HeadOwner;
    hide Moves;
    hide Idle;
    var op := Prepare(t, identity, due);
    DecidedCarried(v, op, note);
    OwnerAtHead(v.disk, t);
    var h := Head(v.disk, t);
    var verdict := Decide(op, note, v.disk);
    if verdict.Advance? {
      SettleMeans(v.locks, t, HeadOwner(v.disk, t), verdict.step.mode);
      assert verdict.reply.Proceed? ==> MayRun(h, identity, due, verdict.reply.attempt);
      assert Needed(verdict.step) == if verdict.reply.Proceed? then 4 else 3;
    }
  }

  lemma PrepareRun(v: View, t: Target, identity: Identity, due: bool, note: string)
    requires v.disk.manifest.Some? && Accepts(v.disk) && ChainsRecorded(v.disk)
    ensures var (v', reply) := Perform(v, Prepare(t, identity, due), note);
            PrepareRuns(v, t, identity, due, reply)
  {
    hide Accepts;
    hide ChainsRecorded;
    hide Perform;
    hide Settle;
    hide Release;
    hide Guarded;
    hide Claimable;
    hide Freed;
    hide LastCommitted;
    hide ApplyAll;
    hide HeadOwner;
    hide Moves;
    hide Idle;
    var op := Prepare(t, identity, due);
    DecidedCarried(v, op, note);
    OwnerAtHead(v.disk, t);
    var h := Head(v.disk, t);
    var verdict := Decide(op, note, v.disk);
    if verdict.Advance? {
      SettleMeans(v.locks, t, HeadOwner(v.disk, t), verdict.step.mode);
      assert verdict.reply.Proceed? ==> MayRun(h, identity, due, verdict.reply.attempt);
      assert Needed(verdict.step) == if verdict.reply.Proceed? then 4 else 3;
    }
  }

  lemma PrepareTold(v: View, t: Target, identity: Identity, due: bool, note: string)
    requires v.disk.manifest.Some? && Accepts(v.disk) && ChainsRecorded(v.disk)
    ensures var (v', reply) := Perform(v, Prepare(t, identity, due), note);
            PrepareTells(v, t, identity, due, reply)
  {
    hide Perform;
    hide PrepareKnows;
    hide PrepareRuns;
    PrepareKnown(v, t, identity, due, note);
    PrepareRun(v, t, identity, due, note);
  }

  lemma PrepareCommitted(v: View, t: Target, identity: Identity, due: bool, note: string)
    requires v.disk.manifest.Some? && Accepts(v.disk) && ChainsRecorded(v.disk)
    ensures var (v', reply) := Perform(v, Prepare(t, identity, due), note);
            PrepareCommits(v, v', t, identity, note, reply)
  {
    hide Accepts;
    hide ChainsRecorded;
    hide Perform;
    hide Settle;
    hide Release;
    hide Guarded;
    hide Claimable;
    hide Freed;
    hide LastCommitted;
    hide ApplyAll;
    hide HeadOwner;
    hide Moves;
    var op := Prepare(t, identity, due);
    DecidedCarried(v, op, note);
    OwnerAtHead(v.disk, t);
    var verdict := Decide(op, note, v.disk);
    if verdict.Advance? {
      SettleMeans(v.locks, t, HeadOwner(v.disk, t), verdict.step.mode);
      var token := Settle(v.locks, t, HeadOwner(v.disk, t), verdict.step.mode).1;
      assert Needed(verdict.step) == if verdict.reply.Proceed? then 4 else 3;
    }
  }

  // ------------------------------------------------------- attempt updates

  /** One commit under a lock: turned away, cut short, or through. */
  ghost predicate Writes(v: View, v': View, t: Target, lock: bool, files: nat, body: Body, answer: Reply, reply: Reply)
  {
    if !lock then reply == Raised(Busy) && Idle(v, v')
    else if v.quota < files then reply == Raised(Interrupted) && Idle(v, v')
    else reply == answer && Moves(v.disk, v'.disk, t, body) && v'.mutated
  }

  ghost predicate TurnedAway(v: View, v': View, reply: Reply, fault: Fault) {
    reply == Raised(fault) && Idle(v, v')
  }

  ghost predicate SideEffectMarked(v: View, v': View, t: Target, note: string, reply: Reply) {
    var h := Head(v.disk, t);
    if h.None? then TurnedAway(v, v', reply, Untrusted)
    else if h.value.status != Running then TurnedAway(v, v', reply, Refused)
    else
      Writes(v, v', t, Guarded(v.locks, t, h.value.owner), 3, h.value.(effect := true, note := note), Done, reply)
  }

  ghost predicate CheckpointMarked(v: View, v': View, t: Target, note: string, reply: Reply) {
    var h := Head(v.disk, t);
    if h.None? then TurnedAway(v, v', reply, Untrusted)
    else if h.value.status != Running then TurnedAway(v, v', reply, Refused)
    else
      && Writes(v, v', t, Guarded(v.locks, t, h.value.owner), 3,
                h.value.(status := CheckpointPending, owner := None, note := note), Done, reply)
      && (reply == Done ==> Freed(v.locks, v'.locks, t))
  }

  ghost predicate CandidateSaved(v: View, v': View, t: Target, c: Candidate, note: string, reply: Reply) {
    var h := Head(v.disk, t);
    if h.None? then TurnedAway(v, v', reply, Untrusted)
    else if h.value.status != Running then TurnedAway(v, v', reply, Refused)
    else
      && Writes(v, v', t, Guarded(v.locks, t, h.value.owner), 4,
                h.value.(status := SuccessCandidate, candidate := Some(c), owner := None, note := note), Done, reply)
      && (reply == Done ==> Freed(v.locks, v'.locks, t))
  }

  /** Only a saved candidate completes, under the digest of what was materialised; completing again changes nothing. */
  ghost predicate TargetCompleted(v: View, v': View, t: Target, artifact: string, materialised: Option<string>,
                                  note: string, reply: Reply)
  {
    var h := Head(v.disk, t);
    if h.None? then TurnedAway(v, v', reply, Untrusted)
    else if h.value.status == Completed then
      Idle(v, v') && reply == (if h.value.artifact == Some(artifact) then Done else Raised(Refused))
    else if h.value.status == Running then
      TurnedAway(v, v', reply, if Guarded(v.locks, t, h.value.owner) then Untrusted else Busy)
    else if h.value.status != SuccessCandidate then TurnedAway(v, v', reply, Refused)
    else if !Claimable(v.locks, t, h.value.owner, true) then TurnedAway(v, v', reply, Busy)
    else if materialised.None? then TurnedAway(v, v', reply, Untrusted)
    else if materialised != Some(artifact) then TurnedAway(v, v', reply, Refused)
    else
      && Writes(v, v', t, true, 3,
                h.value.(status := Completed, artifact := Some(artifact), owner := None, note := note), Done, reply)
      && (reply == Done ==> Freed(v.locks, v'.locks, t))
  }

  /** A failure is retried exactly when its kind is one the policy lists and an attempt is left. */
  ghost predicate FailureRecorded(v: View, v': View, t: Target, policy: Option<Policy>, kind: Option<string>,
                                  note: string, reply: Reply)
  {
    var h := Head(v.disk, t);
    if h.None? then TurnedAway(v, v', reply, Untrusted)
    else if h.value.status != Running then TurnedAway(v, v', reply, Refused)
    else
      var retried := && policy.Some? && h.value.attempt < policy.value.maxAttempts
                     && kind.Some? && kind.value in policy.value.retryOn;
      && Writes(v, v', t, Guarded(v.locks, t, h.value.owner), 3,
                if retried then
                  h.value.(status := RetryScheduled, nextAttempt := h.value.attempt + 1, owner := None, note := note)
                else h.value.(status := Failed, owner := None, note := note),
                if retried then Pending else AlreadyFailed, reply)
      && (reply == Pending || reply == AlreadyFailed ==> Freed(v.locks, v'.locks, t))
  }

  ghost predicate UpdateTells(v: View, v': View, op: Operation, note: string, reply: Reply)
    requires OnExistingState(op) && !op.ScheduleRecovery? && !op.RecordRecovery?
  {
    match op
    case MarkSideEffect(t) => SideEffectMarked(v, v', t, note, reply)
    case MarkCheckpoint(t) => CheckpointMarked(v, v', t, note, reply)
    case SaveCandidate(t, c) => CandidateSaved(v, v', t, c, note, reply)
    case MarkCompleted(t, artifact, materialised) => TargetCompleted(v, v', t, artifact, materialised, note, reply)
    case RecordFailure(t, policy, kind) => FailureRecorded(v, v', t, policy, kind, note, reply)
  }

  lemma MarkTold(v: View, op: Operation, note: string)
    requires v.disk.manifest.Some? && Accepts(v.disk) && ChainsRecorded(v.disk)
    requires op.MarkSideEffect? || op.MarkCheckpoint? || op.SaveCandidate?
    ensures var (v', reply) := Perform(v, op, note);
            UpdateTells(v, v', op, note, reply)
  {
    hide Accepts;
    hide ChainsRecorded;
    hide Perform;
    hide Settle;
    hide Release;
    hide Guarded;
    hide Claimable;
    hide Freed;
    hide LastCommitted;
    hide ApplyAll;
    hide Moves;
    DecidedCarried(v, op, note);
    OwnerAtHead(v.disk, op.target);
    var verdict := Decide(op, note, v.disk);
    if verdict.Advance? {
      SettleMeans(v.locks, op.target, HeadOwner(v.disk, op.target), verdict.step.mode);
    }
  }

  lemma CompletionTold(v: View, op: Operation, note: string)
    requires v.disk.manifest.Some? && Accepts(v.disk) && ChainsRecorded(v.disk)
    requires op.MarkCompleted?
    ensures var (v', reply) := Perform(v, op, note);
            UpdateTells(v, v', op, note, reply)
  {
    hide Accepts;
    hide ChainsRecorded;
    hide Perform;
    hide Settle;
    hide Release;
    hide Guarded;
    hide Claimable;
    hide Freed;
    hide LastCommitted;
    hide ApplyAll;
    hide Moves;
    DecidedCarried(v, op, note);
    OwnerAtHead(v.disk, op.target);
    var verdict := Decide(op, note, v.disk);
    if verdict.Advance? {
      SettleMeans(v.locks, op.target, HeadOwner(v.disk, op.target), verdict.step.mode);
    }
  }

  lemma FailureTold(v: View, op: Operation, note: string)
    requires v.disk.manifest.Some? && Accepts(v.disk) && ChainsRecorded(v.disk)
    requires op.RecordFailure?
    ensures var (v', reply) := Perform(v, op, note);
            UpdateTells(v, v', op, note, reply)
  {
    hide Accepts;
    hide ChainsRecorded;
    hide Perform;
    hide Settle;
    hide Release;
    hide Guarded;
    hide Claimable;
    hide Freed;
    hide LastCommitted;
    hide ApplyAll;
    hide Moves;
    DecidedCarried(v, op, note);
    OwnerAtHead(v.disk, op.target);
    var verdict := Decide(op, note, v.disk);
    if verdict.Advance? {
      SettleMeans(v.locks, op.target, HeadOwner(v.disk, op.target), verdict.step.mode);
    }
  }

  lemma UpdateTold(v: View, op: Operation, note: string)
    requires v.disk.manifest.Some? && Accepts(v.disk) && ChainsRecorded(v.disk)
    requires OnExistingState(op) && !op.ScheduleRecovery? && !op.RecordRecovery?
    ensures var (v', reply) := Perform(v, op, note);
            UpdateTells(v, v', op, note, reply)
  {
    hide Perform;
    hide UpdateTells;
    if op.MarkCompleted? {
      CompletionTold(v, op, note);
    } else if op.RecordFailure? {
      FailureTold(v, op, note);
    } else {
      MarkTold(v, op, note);
    }
  }

  // ---------------------------------------------------------------- resolve

  /** An ambiguous attempt whose lease is this store's already: nothing is written before the resolution. */
  predicate OwnedAlready(l: Locks, b: Body, t: Target) {
    b.status == Ambiguous && t in l.leases
  }

  function ResolvedTo(b: Body, retry: bool, note: string): Body {
    if retry then
      b.(status := RetryScheduled, nextAttempt := b.attempt + 1, resolved := true, owner := None, note := note)
    else b.(status := Failed, resolved := true, owner := None, note := note)
  }

  ghost predicate ResolveTells(v: View, v': View, t: Target, attempt: int, retry: bool, reason: string, note: string,
                               reply: Reply)
  {
    var h := Head(v.disk, t);
    if reason == "" then TurnedAway(v, v', reply, Refused)
    else if h.None? then TurnedAway(v, v', reply, Untrusted)
    else
      var b := h.value;
      var first := if OwnedAlready(v.locks, b, t) then 0 else 3;
      if b.attempt != attempt || (b.status != Ambiguous && !Crossed(b, attempt)) then
        TurnedAway(v, v', reply, Refused)
      else if !Claimable(v.locks, t, b.owner, true) then TurnedAway(v, v', reply, Busy)
      else if v.quota < first then TurnedAway(v, v', reply, Interrupted)
      else if t in v.locks.leases && !Guarded(v.locks, t, b.owner) then reply == Raised(Busy)
      else if v.quota < first + 4 then reply == Raised(Interrupted)
      else
        && reply == Done && Moves(v.disk, v'.disk, t, ResolvedTo(b, retry, note)) && v'.mutated
        && Freed(v.locks, v'.locks, t)
        && t in v'.disk.folders && attempt in v'.disk.folders[t].resolutions
        && v'.disk.folders[t].resolutions[attempt] == reason
  }

  /** A resolution that is stopped between its two commits leaves the attempt ambiguous, owned by this store. */
  ghost predicate ResolveLeaves(v: View, v': View, t: Target, note: string, reply: Reply) {
    var h := Head(v.disk, t);
    reply != Done ==>
      || LastCommitted(v'.disk) == LastCommitted(v.disk)
      || (h.Some? && exists token ::
            Moves(v.disk, v'.disk, t, h.value.(status := Ambiguous, owner := Some(token), note := note)))
  }

  /** The first half of `resolve`, whose decision is a step like any other. */
  lemma OwningCarried(v: View, t: Target, attempt: int, note: string)
    requires v.disk.manifest.Some? && Accepts(v.disk) && ChainsRecorded(v.disk) && StateAt(v.disk, t).Some?
    requires OwnAmbiguous(StateAt(v.disk, t).value.snapshot.body, attempt, note).Some?
    ensures var step := OwnAmbiguous(StateAt(v.disk, t).value.snapshot.body, attempt, note).value;
            var (v2, out) := Execute(v, t, OwnerOf(v.disk, t), step);
            && Carried(v, v2, t, step, Done, Concluded(out, Done, Done))
            && ChainsRecorded(v2.disk)
            && (!out.Stopped? ==>
                  && v2.disk.manifest.Some? && StateAt(v2.disk, t).Some?
                  && Heads(ChainOf(v2.disk.manifest.value, t), t, StateAt(v2.disk, t).value.snapshot.body)
                  && Head(v2.disk, t) == Some(StateAt(v2.disk, t).value.snapshot.body)
                  && StateAt(v2.disk, t).value.snapshot.body.status.Ambiguous?)
  {
    hide Accepts;
    hide Execute;
    hide LawfulStep;
    hide Carried;
    hide GrowsBy;
    hide OwnAmbiguous;
    hide ChainsRecorded;
    AcceptedState(v.disk, t);
    OwnerAtHead(v.disk, t);
    var b := StateAt(v.disk, t).value.snapshot.body;
    OwningIsLawful(b, ChainOf(v.disk.manifest.value, t), t, attempt, note);
    var step := OwnAmbiguous(b, attempt, note).value;
    StepIsCarried(v, t, step, Done);
    OwningEffect(v, t, attempt, note, {Status.Ambiguous});
    var (v2, out) := Execute(v, t, OwnerOf(v.disk, t), step);
    if !out.Stopped? {
      LastRecord(v2.disk, t);
    }
  }

  lemma SettlingCarried(v: View, t: Target, b: Body, retry: bool, reason: string, note: string)
    requires v.disk.manifest.Some? && Heads(ChainOf(v.disk.manifest.value, t), t, b) && b.status.Ambiguous?
    requires Head(v.disk, t) == Some(b)
    ensures var step := Settled(b, retry, reason, note);
            var (v3, out) := Execute(v, t, b.owner, step);
            && Carried(v, v3, t, step, Done, Concluded(out, Done, Done))
            && (out.Finished? ==> t in v3.disk.folders && b.attempt in v3.disk.folders[t].resolutions
                                  && v3.disk.folders[t].resolutions[b.attempt] == reason)
            && !out.Adopted?
  {
    hide Execute;
    hide LawfulStep;
    hide Carried;
    var step := Settled(b, retry, reason, note);
    SettlingIsLawful(b, ChainOf(v.disk.manifest.value, t), t, retry, reason, note);
    StepIsCarried(v, t, step, Done);
    ExecuteEffect(v, t, b.owner, step);
    ExecuteLanded(v, t, b.owner, step);
    assert ApplyAll(v.disk, step.before) == Apply(v.disk, step.before[0]);
  }

  /** What the second half of `resolve` starts from. */
  ghost predicate Halfway(v: View, v2: View, t: Target, b: Body, b2: Body, note: string) {
    if OwnedAlready(v.locks, b, t) then
      v2.disk == v.disk && v2.locks == v.locks && v2.quota == v.quota && v2.mutated == v.mutated && b2 == b
    else
      && b2.owner.Some? && b2 == b.(status := Ambiguous, owner := b2.owner, note := note)
      && Moves(v.disk, v2.disk, t, b2)
      && v2.quota == v.quota - 3 && v2.mutated && v.quota >= 3
      && Freed(v.locks, Release(v2.locks, t), t)
      && (Guarded(v2.locks, t, b2.owner) <==> (t in v.locks.leases ==> Guarded(v.locks, t, b.owner)))
  }

  lemma FirstHalf(v: View, t: Target, attempt: int, note: string)
    requires v.disk.manifest.Some? && Accepts(v.disk) && ChainsRecorded(v.disk) && StateAt(v.disk, t).Some?
    requires OwnAmbiguous(StateAt(v.disk, t).value.snapshot.body, attempt, note).Some?
    ensures var b := StateAt(v.disk, t).value.snapshot.body;
            var step := OwnAmbiguous(b, attempt, note).value;
            var (v2, out) := Execute(v, t, OwnerOf(v.disk, t), step);
            if !Claimable(v.locks, t, b.owner, true) then out == Stopped(Busy) && Idle(v, v2)
            else if !OwnedAlready(v.locks, b, t) && v.quota < 3 then out == Stopped(Interrupted) && Idle(v, v2)
            else
              && !out.Stopped? && StateAt(v2.disk, t).Some?
              && Halfway(v, v2, t, b, StateAt(v2.disk, t).value.snapshot.body, note)
  {
    hide Accepts;
    hide Execute;
    hide ChainsRecorded;
    hide LastCommitted;
    hide Settle;
    hide Guarded;
    hide Claimable;
    hide Freed;
    hide Release;
    hide Heads;
    OwnerAtHead(v.disk, t);
    OwningCarried(v, t, attempt, note);
    var b := StateAt(v.disk, t).value.snapshot.body;
    var step := OwnAmbiguous(b, attempt, note).value;
    SettleMeans(v.locks, t, HeadOwner(v.disk, t), step.mode);
    assert Needed(step) == 3;
    var (v2, out) := Execute(v, t, OwnerOf(v.disk, t), step);
    var (l, grant) := Settle(v.locks, t, HeadOwner(v.disk, t), step.mode);
    if !OwnedAlready(v.locks, b, t) && !out.Stopped? {
      var b2 := StateAt(v2.disk, t).value.snapshot.body;
      assert b2 == Owned(step.body, step.owner, grant.token);
    }
  }

  /** What the second half of `resolve` comes to. */
  ghost predicate SettledBy(v2: View, v3: View, t: Target, b2: Body, retry: bool, reason: string, note: string,
                            reply: Reply)
  {
    if !Guarded(v2.locks, t, b2.owner) then reply == Raised(Busy) && Idle(v2, v3)
    else if v2.quota < 4 then reply == Raised(Interrupted) && Idle(v2, v3)
    else
      && reply == Done && Moves(v2.disk, v3.disk, t, ResolvedTo(b2, retry, note)) && v3.mutated
      && Freed(v2.locks, v3.locks, t) && v3.locks == Release(v2.locks, t)
      && t in v3.disk.folders && b2.attempt in v3.disk.folders[t].resolutions
      && v3.disk.folders[t].resolutions[b2.attempt] == reason
  }

  lemma SecondHalf(v2: View, t: Target, b2: Body, retry: bool, reason: string, note: string)
    requires v2.disk.manifest.Some? && Heads(ChainOf(v2.disk.manifest.value, t), t, b2) && b2.status.Ambiguous?
    requires Head(v2.disk, t) == Some(b2)
    ensures var (v3, out) := Execute(v2, t, b2.owner, Settled(b2, retry, reason, note));
            SettledBy(v2, v3, t, b2, retry, reason, note, Concluded(out, Done, Done))
  {
    hide Execute;
    hide Settle;
    hide Guarded;
    hide Freed;
    hide Release;
    hide Moves;
    hide Heads;
    hide LastCommitted;
    var last := Settled(b2, retry, reason, note);
    assert Needed(last) == 4;
    SettlingCarried(v2, t, b2, retry, reason, note);
    SettleMeans(v2.locks, t, HeadOwner(v2.disk, t), last.mode);
  }

  /** Both halves, one after the other. */
  lemma BothHalves(v: View, t: Target, attempt: int, retry: bool, reason: string, note: string)
    requires v.disk.manifest.Some? && Accepts(v.disk) && ChainsRecorded(v.disk) && StateAt(v.disk, t).Some?
    requires OwnAmbiguous(StateAt(v.disk, t).value.snapshot.body, attempt, note).Some?
    ensures var b := StateAt(v.disk, t).value.snapshot.body;
            var step := OwnAmbiguous(b, attempt, note).value;
            var (v2, out) := Execute(v, t, OwnerOf(v.disk, t), step);
            if !Claimable(v.locks, t, b.owner, true) then out == Stopped(Busy) && Idle(v, v2)
            else if !OwnedAlready(v.locks, b, t) && v.quota < 3 then out == Stopped(Interrupted) && Idle(v, v2)
            else
              && !out.Stopped? && v2.disk.manifest.Some? && StateAt(v2.disk, t).Some?
              && var b2 := StateAt(v2.disk, t).value.snapshot.body;
                 var (v3, last) := Execute(v2, t, b2.owner, Settled(b2, retry, reason, note));
                 && Halfway(v, v2, t, b, b2, note)
                 && SettledBy(v2, v3, t, b2, retry, reason, note, Concluded(last, Done, Done))
  {
    hide Accepts;
    hide Execute;
    hide ChainsRecorded;
    hide OwnAmbiguous;
    hide Carried;
    hide Claimable;
    hide Idle;
    hide Halfway;
    hide SettledBy;
    hide Settled;
    hide Heads;
    hide Head;
    OwningCarried(v, t, attempt, note);
    FirstHalf(v, t, attempt, note);
    var step := OwnAmbiguous(StateAt(v.disk, t).value.snapshot.body, attempt, note).value;
    var (v2, out) := Execute(v, t, OwnerOf(v.disk, t), step);
    if !out.Stopped? {
      SecondHalf(v2, t, StateAt(v2.disk, t).value.snapshot.body, retry, reason, note);
    }
  }

  lemma ResolveTold(v: View, t: Target, attempt: int, retry: bool, reason: string, note: string)
    requires v.disk.manifest.Some? && Accepts(v.disk) && ChainsRecorded(v.disk)
    ensures var (v', reply) := Perform(v, Resolve(t, attempt, retry, reason), note);
            && ResolveTells(v, v', t, attempt, retry, reason, note, reply)
            && ResolveLeaves(v, v', t, note, reply)
  {
    hide Accepts;
    hide Execute;
    hide ChainsRecorded;
    hide LastCommitted;
    hide Guarded;
    hide Claimable;
    hide Freed;
    hide Release;
    hide Moves;
    hide Settled;
    LoadAccepted(v);
    var v1 := Load(v).0;
    OwnerAtHead(v.disk, t);
    if reason != "" && StateAt(v.disk, t).Some? {
      var b := StateAt(v.disk, t).value.snapshot.body;
      var first := OwnAmbiguous(b, attempt, note);
      if first.Some? {
        BothHalves(v1, t, attempt, retry, reason, note);
        var (v2, out) := Execute(v1, t, OwnerOf(v1.disk, t), first.value);
        if !out.Stopped? {
          var b2 := StateAt(v2.disk, t).value.snapshot.body;
          var v3 := Execute(v2, t, b2.owner, Settled(b2, retry, reason, note)).0;
          assert ResolvedTo(b2, retry, note) == ResolvedTo(b, retry, note);
          MovesThen(v1.disk, v2.disk, v3.disk, t, b2, ResolvedTo(b, retry, note));
        }
      }
    }
  }

  lemma MovesThen(d: Disk, d1: Disk, d2: Disk, t: Target, b1: Body, b2: Body)
    ensures Moves(d, d1, t, b1) && Moves(d1, d2, t, b2) ==> Moves(d, d2, t, b2)
    ensures Moves(d, d1, t, b1) && LastCommitted(d2) == LastCommitted(d1) ==> Moves(d, d2, t, b1)
  {
  }
}
