/**
  The attempt store as the object it is: fields updated in place, files replaced one at a time,
  leases taken and given back.  Every public method is proved to do exactly what `Operations` says
  of what the store sees, so everything proved about runs of `Operations` is about this class.
 */
module AttemptStores {
  import opened Wrappers
  import opened Records
  import opened Durable
  import opened Leases
  import opened RecoveryNames
  import opened Operations
  import opened Readers
  import Effects

  /** The run directory.  Each write replaces one file; after `quota` writes the process has died. */
  class RunDirectory {
    var disk: Disk
    var quota: nat

    constructor (disk: Disk, quota: nat)
      ensures this.disk == disk && this.quota == quota
    {
      this.disk, this.quota := disk, quota;
    }

    method Write(w: Durable.Write) returns (ok: bool)
      modifies this
      ensures ok == (old(quota) > 0)
      ensures disk == (if ok then Apply(old(disk), w) else old(disk))
      ensures quota == (if ok then old(quota) - 1 else 0)
    {
      if quota == 0 {
        return false;
      }
      disk, quota := Apply(disk, w), quota - 1;
      return true;
    }
  }

  /** The lock files of the machine, and the next token and handle nobody has seen. */
  class LockFiles {
    var held: map<Target, Handle>
    var unused: nat

    constructor ()
      ensures held == map[] && unused == 0
    {
      held, unused := map[], 0;
    }

    method TryLock(t: Target) returns (handle: Option<Handle>)
      modifies this
      ensures handle == (if t in old(held) then None else Some(old(unused)))
      ensures held == (if t in old(held) then old(held) else old(held)[t := old(unused)])
      ensures unused == (if t in old(held) then old(unused) else old(unused) + 1)
    {
      if t in held {
        return None;
      }
      handle := Some(unused);
      held, unused := held[t := unused], unused + 1;
    }

    method Unlock(t: Target, handle: Handle)
      modifies this
      ensures held == Close(old(held), t, handle) && unused == old(unused)
    {
      if IsOpen(held, t, handle) {
        held := held - {t};
      }
    }
  }

  /** The leases the stores of one process share. */
  class Process {
    var leases: map<Target, Lease>

    constructor ()
      ensures leases == map[]
    {
      leases := map[];
    }
  }

  class AttemptStore {
    const directory: RunDirectory
    const lockFiles: LockFiles
    const process: Process
    var leases: map<Target, Lease>
    var generation: Option<nat>
    var fencing: bool
    var admission: Option<nat>
    var mutated: bool

    constructor (directory: RunDirectory, lockFiles: LockFiles, process: Process)
      ensures this.directory == directory && this.lockFiles == lockFiles && this.process == process
      ensures leases == map[] && generation == None && !fencing && admission == None && !mutated
    {
      this.directory, this.lockFiles, this.process := directory, lockFiles, process;
      leases, generation, fencing, admission, mutated := map[], None, false, None, false;
    }

    ghost function Locking(): Locks
      reads this, lockFiles, process
    {
      Locks(lockFiles.held, process.leases, leases, lockFiles.unused)
    }

    /** Everything this store sees. */
    ghost function Seen(): View
      reads this, directory, lockFiles, process
    {
      View(directory.disk, directory.quota, Locking(), generation, fencing, admission, mutated)
    }

    // -------------------------------------------------------------- leases

    method AcquireTargetLease(t: Target, expected: Option<Token>, fence: bool) returns (grant: Grant)
      modifies this`leases, lockFiles, process
      ensures (Locking(), grant) == Acquire(old(Locking()), t, expected, fence)
    {
      if t in leases {
        var current := leases[t].token;
        return if expected == Some(current) then Kept(current) else Denied;
      }
      if t in process.leases && fence {
        var stale := process.leases[t];
        process.leases := process.leases - {t};
        lockFiles.Unlock(t, stale.handle);
      }
      var handle := lockFiles.TryLock(t);
      if handle.None? {
        return Denied;
      }
      var lease := Lease(handle.value, handle.value);
      process.leases := process.leases[t := lease];
      leases := leases[t := lease];
      return Granted(lease.token);
    }

    method RequireTargetLease(t: Target, owner: Option<Token>) returns (held: bool)
      ensures held == Holds(Locking(), t, owner)
    {
      if owner.None? || t !in leases {
        return false;
      }
      var lease := leases[t];
      return IsOpen(lockFiles.held, t, lease.handle) && owner.value == lease.token;
    }

    method ReleaseTargetLease(t: Target)
      modifies this`leases, lockFiles, process
      ensures Locking() == Release(old(Locking()), t)
    {
      if t !in leases {
        return;
      }
      var handle := leases[t].handle;
      leases := leases - {t};
      if t in process.leases && process.leases[t].handle == handle {
        process.leases := process.leases - {t};
      }
      lockFiles.Unlock(t, handle);
    }

    // --------------------------------------------------------------- files

    /** Write the files in order, stopping at the first that does not land. */
    method WriteFiles(ws: seq<Durable.Write>) returns (ok: bool)
      modifies directory
      ensures (Seen(), ok) == WriteAll(old(Seen()), ws)
    {
      ghost var before := Seen();
      var i := 0;
      while i < |ws|
        invariant 0 <= i <= |ws| && i <= before.quota
        invariant Seen() == before.(disk := ApplyAll(before.disk, ws[..i]), quota := before.quota - i)
      {
        ok := directory.Write(ws[i]);
        if !ok {
          return false;
        }
        OneMore(before.disk, ws, i);
        i := i + 1;
      }
      assert ws[..|ws|] == ws;
      return true;
    }

    /** `_write_state_locked`: the state, its receipt, then the manifest that anchors both. */
    method WriteState(t: Target, m: Manifest, body: Body) returns (ok: bool)
      modifies this`generation, this`mutated, directory
      ensures (Seen(), ok) == Committing(old(Seen()), t, m, body)
    {
      var chain := ChainOf(m, t);
      var rec := Seal(body, chain);
      ok := WriteFiles([PutState(t, rec), PutReceipt(t, body.attempt, rec), PutManifest(Extended(m, t, rec))]);
      if ok {
        generation := Some(m.generation);
        mutated := true;
      }
    }

    // ------------------------------------------------------------- readers

    /** `_required_manifest`, then every attempt receipt: false where the source raises. */
    method ReadRun() returns (ok: bool)
      modifies this`generation, this`fencing
      ensures (Seen(), ok) == Load(old(Seen()))
      ensures ok ==> directory.disk.manifest.Some?
    {
      hide Accepts;
      hide ValidManifest;
      if directory.disk.manifest.None? {
        return false;
      }
      var m := directory.disk.manifest.value;
      ok := ValidateManifest(m, directory.disk.recoveries);
      if !ok {
        return false;
      }
      if !fencing {
        generation := Some(m.generation);
        fencing := true;
      }
      ok := ValidateRun(directory.disk);
    }

    /** `_required_state`: the durable state of a target of a run the readers accept. */
    method RequiredState(t: Target) returns (state: Option<Record>)
      modifies this`generation, this`fencing
      ensures Seen() == Load(old(Seen())).0
      ensures state == if Load(old(Seen())).1 then StateAt(directory.disk, t) else None
      ensures state.Some? ==> directory.disk.manifest.Some?
    {
      var ok := ReadRun();
      return if ok then StateAt(directory.disk, t) else None;
    }

    /** `_clear_target_owner` and `_write_state`. */
    method ClearAndWrite(t: Target, m: Manifest, body: Body) returns (ok: bool)
      modifies this`leases, this`generation, this`mutated, lockFiles, process, directory
      ensures (Seen(), ok) == Committing(old(Seen()).(locks := Release(old(Locking()), t)), t, m, body.(owner := None))
    {
      ReleaseTargetLease(t);
      ok := WriteState(t, m, body.(owner := None));
    }

    // ---------------------------------------------------------- operations

    method MarkSideEffect(t: Target, note: string) returns (r: Reply)
      modifies this, directory, lockFiles, process
      ensures (Seen(), r) == Perform(old(Seen()), Operation.MarkSideEffect(t), note)
    {
      hide Accepts;
      hide ValidManifest;
      hide CommitWrites;
      hide ApplyAll;
      hide Execute;
      hide WriteAll;
      hide Committing;
      hide Acquire;
      hide Holds;
      hide Release;
      var state := RequiredState(t);
      if state.None? {
        return Raised(Untrusted);
      }
      var b := state.value.snapshot.body;
      if !b.status.Running? {
        return Raised(Refused);
      }
      ghost var step := Write1(Require, b.(effect := true, note := note), KeepOwner);
      PlainStep(Seen(), t, b.owner, step);
      var held := RequireTargetLease(t, b.owner);
      if !held {
        return Raised(Busy);
      }
      var ok := WriteState(t, directory.disk.manifest.value, b.(effect := true, note := note));
      return if ok then Done else Raised(Interrupted);
    }

    method MarkCheckpoint(t: Target, note: string) returns (r: Reply)
      modifies this, directory, lockFiles, process
      ensures (Seen(), r) == Perform(old(Seen()), Operation.MarkCheckpoint(t), note)
    {
      hide Accepts;
      hide ValidManifest;
      hide CommitWrites;
      hide ApplyAll;
      hide Execute;
      hide WriteAll;
      hide Committing;
      hide Acquire;
      hide Holds;
      hide Release;
      var state := RequiredState(t);
      if state.None? {
        return Raised(Untrusted);
      }
      var b := state.value.snapshot.body;
      if !b.status.Running? {
        return Raised(Refused);
      }
      ghost var step := Write1(Require, b.(status := CheckpointPending, note := note), ClearOwner);
      PlainStep(Seen(), t, b.owner, step);
      var held := RequireTargetLease(t, b.owner);
      if !held {
        return Raised(Busy);
      }
      var ok := ClearAndWrite(t, directory.disk.manifest.value, b.(status := CheckpointPending, note := note));
      return if ok then Done else Raised(Interrupted);
    }

    method SaveCandidate(t: Target, candidate: Candidate, note: string) returns (r: Reply)
      modifies this, directory, lockFiles, process
      ensures (Seen(), r) == Perform(old(Seen()), Operation.SaveCandidate(t, candidate), note)
    {
      hide Accepts;
      hide ValidManifest;
      hide CommitWrites;
      hide ApplyAll;
      hide Execute;
      hide WriteAll;
      hide Committing;
      hide Acquire;
      hide Holds;
      hide Release;
      var state := RequiredState(t);
      if state.None? {
        return Raised(Untrusted);
      }
      var b := state.value.snapshot.body;
      if !b.status.Running? {
        return Raised(Refused);
      }
      var m := directory.disk.manifest.value;
      ghost var step := Write1(Require, b.(status := SuccessCandidate, candidate := Some(candidate), note := note),
                               ClearOwner)
        .(before := [PutCandidate(t, b.attempt, candidate)]);
      WholeStep(Seen(), t, b.owner, step);
      var held := RequireTargetLease(t, b.owner);
      if !held {
        return Raised(Busy);
      }
      var ok := WriteFiles([PutCandidate(t, b.attempt, candidate)]);
      if !ok {
        return Raised(Interrupted);
      }
      NoFiles(Seen().(locks := Release(Locking(), t)));
      ok := ClearAndWrite(t, m, b.(status := SuccessCandidate, candidate := Some(candidate), note := note));
      return if ok then Done else Raised(Interrupted);
    }

    /** `materialised` is the artifact the run directory holds beside its sidecar, if both are there and agree. */
    method MarkCompleted(t: Target, artifact: string, materialised: Option<string>, note: string) returns (r: Reply)
      modifies this, directory, lockFiles, process
      ensures (Seen(), r) == Perform(old(Seen()), Operation.MarkCompleted(t, artifact, materialised), note)
    {
      hide Accepts;
      hide ValidManifest;
      hide CommitWrites;
      hide ApplyAll;
      hide Execute;
      hide WriteAll;
      hide Committing;
      hide Acquire;
      hide Holds;
      hide Release;
      var state := RequiredState(t);
      if state.None? {
        return Raised(Untrusted);
      }
      var b := state.value.snapshot.body;
      if b.status.Completed? {
        return if b.artifact == Some(artifact) then Done else Raised(Refused);
      }
      ghost var v := Seen();
      ghost var verdict := DecideCompleted(b, artifact, materialised, note);
      if verdict.Advance? {
        WholeStep(v, t, b.owner, verdict.step);
      }
      if b.status.Running? {
        var held := RequireTargetLease(t, b.owner);
        if !held {
          return Raised(Busy);
        }
      } else if b.status.SuccessCandidate? {
        var grant := AcquireTargetLease(t, b.owner, true);
        if grant.Denied? {
          return Raised(Busy);
        }
      } else {
        return Raised(Refused);
      }
      NoFiles(Seen());
      if b.candidate.None? || materialised.None? {
        return Raised(Untrusted);
      }
      if materialised.value != artifact {
        return Raised(Refused);
      }
      NoFiles(Seen().(locks := Release(Locking(), t)));
      var ok := ClearAndWrite(t, directory.disk.manifest.value,
                              b.(status := Completed, artifact := Some(artifact), note := note));
      return if ok then Done else Raised(Interrupted);
    }

    method RecordFailure(t: Target, policy: Option<Policy>, kind: Option<string>, note: string) returns (r: Reply)
      modifies this, directory, lockFiles, process
      ensures (Seen(), r) == Perform(old(Seen()), Operation.RecordFailure(t, policy, kind), note)
    {
      hide Accepts;
      hide ValidManifest;
      hide CommitWrites;
      hide ApplyAll;
      hide Execute;
      hide WriteAll;
      hide Committing;
      hide Acquire;
      hide Holds;
      hide Release;
      var state := RequiredState(t);
      if state.None? {
        return Raised(Untrusted);
      }
      var b := state.value.snapshot.body;
      if !b.status.Running? {
        return Raised(Refused);
      }
      PlainStep(Seen(), t, b.owner, DecideFailure(b, policy, kind, note).step);
      var held := RequireTargetLease(t, b.owner);
      if !held {
        return Raised(Busy);
      }
      var next;
      if Retryable(b, policy, kind) {
        next := b.(status := RetryScheduled, nextAttempt := b.attempt + 1, note := note);
        r := Pending;
      } else {
        next := b.(status := Failed, note := note);
        r := AlreadyFailed;
      }
      var ok := ClearAndWrite(t, directory.disk.manifest.value, next);
      if !ok {
        r := Raised(Interrupted);
      }
    }

    /** `_start_attempt`, under the lease just taken. */
    method StartAttempt(t: Target, m: Manifest, attempt: int, identity: Identity, note: string) returns (ok: bool)
      requires t in leases
      modifies this`generation, this`mutated, directory
      ensures var (v, made) := WriteAll(old(Seen()), [MakeFolder(t)]);
              (Seen(), ok) ==
                if made then Committing(v, t, m, StartBody(t, attempt, identity, note).(owner := Some(leases[t].token)))
                else (v, false)
    {
      var body := StartBody(t, attempt, identity, note).(owner := Some(leases[t].token));
      ok := WriteFiles([MakeFolder(t)]);
      if ok {
        ok := WriteState(t, m, body);
      }
    }

    /** Take the lease, unless this store already runs the attempt, and start it. */
    method ClaimAndStart(t: Target, owner: Option<Token>, attempt: int, identity: Identity, adopt: bool, note: string)
      returns (r: Reply)
      requires directory.disk.manifest.Some?
      modifies this, directory, lockFiles, process
      ensures var step := Start(t, attempt, identity, adopt, note).step;
              var (v, out) := Execute(old(Seen()), t, owner, step);
              (Seen(), r) == (v, Concluded(out, Proceed(attempt), Proceed(attempt)))
    {
      hide CommitWrites;
      hide ApplyAll;
      ghost var v := Seen();
      WholeStep(v, t, owner, Start(t, attempt, identity, adopt, note).step);
      var grant := AcquireTargetLease(t, owner, false);
      if grant.Denied? {
        return Raised(Busy);
      }
      if grant.Kept? && adopt {
        return Proceed(attempt);
      }
      NoFiles(Seen());
      var ok := StartAttempt(t, directory.disk.manifest.value, attempt, identity, note);
      return if ok then Proceed(attempt) else Raised(Interrupted);
    }

    method Prepare(t: Target, identity: Identity, due: bool, note: string) returns (r: Reply)
      modifies this, directory, lockFiles, process
      ensures (Seen(), r) == Perform(old(Seen()), Operation.Prepare(t, identity, due), note)
    {
      hide Accepts;
      hide ValidManifest;
      hide CommitWrites;
      hide ApplyAll;
      hide Execute;
      var ok := ReadRun();
      if !ok {
        return Raised(Untrusted);
      }
      var state := StateAt(directory.disk, t);
      if state.None? {
        r := ClaimAndStart(t, None, 1, identity, false, note);
        return;
      }
      var b := state.value.snapshot.body;
      if b.identity != identity {
        return Raised(Refused);
      }
      match b.status
      case Running =>
        if b.effect {
          r := AbandonAttempt(t, b, note);
        } else {
          r := ClaimAndStart(t, b.owner, b.attempt, identity, true, note);
        }
      case CheckpointPending => r := ClaimAndStart(t, b.owner, b.attempt, identity, false, note);
      case RetryScheduled =>
        if !due {
          return Pending;
        }
        r := ClaimAndStart(t, b.owner, b.nextAttempt, identity, false, note);
      case SuccessCandidate => return if b.candidate.Some? then Ready(b.candidate.value) else Raised(Untrusted);
      case Completed => return AlreadyCompleted;
      case Ambiguous => return Raised(AmbiguousAttempt(b.attempt));
      case Failed => return AlreadyFailed;
    }

    /** Fence whoever ran an attempt past its boundary, and record that its outcome is unknown. */
    method AbandonAttempt(t: Target, b: Body, note: string) returns (r: Reply)
      requires directory.disk.manifest.Some?
      modifies this, directory, lockFiles, process
      ensures var step := Write1(Claim(true, false), b.(status := Ambiguous, note := note), ClearOwner);
              var (v, out) := Execute(old(Seen()), t, b.owner, step);
              var reply := Raised(AmbiguousAttempt(b.attempt));
              (Seen(), r) == (v, Concluded(out, reply, reply))
    {
      hide CommitWrites;
      hide ApplyAll;
      ghost var v := Seen();
      PlainStep(v, t, b.owner, Write1(Claim(true, false), b.(status := Ambiguous, note := note), ClearOwner));
      var grant := AcquireTargetLease(t, b.owner, true);
      if grant.Denied? {
        return Raised(Busy);
      }
      var ok := ClearAndWrite(t, directory.disk.manifest.value, b.(status := Ambiguous, note := note));
      return Raised(if ok then AmbiguousAttempt(b.attempt) else Interrupted);
    }

    /** First half of `resolve`: own the ambiguous attempt. */
    method OwnAttempt(t: Target, b: Body, step: Step) returns (fault: Option<Fault>, owned: Body)
      requires directory.disk.manifest.Some? && StateAt(directory.disk, t).Some?
               && StateAt(directory.disk, t).value.snapshot.body == b
      requires step.mode.Claim? && step.mode.fence && step == Write1(step.mode, step.body, TakeOwner)
      modifies this, directory, lockFiles, process
      ensures var (v, out) := Execute(old(Seen()), t, b.owner, step);
              && Seen() == v
              && fault == (if out.Stopped? then Some(out.fault) else None)
              && (fault.None? ==>
                    directory.disk.manifest.Some? && StateAt(directory.disk, t).Some?
                    && StateAt(directory.disk, t).value.snapshot.body == owned)
    {
      hide Accepts;
      hide ValidManifest;
      hide CommitWrites;
      hide ApplyAll;
      hide Execute;
      hide WriteAll;
      hide Committing;
      hide Acquire;
      hide Holds;
      hide Release;
      ghost var v := Seen();
      var m := directory.disk.manifest.value;
      PlainStep(v, t, b.owner, step);
      AdoptedStep(v, t, b.owner, step);
      GrantedLease(v.locks, t, b.owner, true);
      var grant := AcquireTargetLease(t, b.owner, true);
      if grant.Denied? {
        return Some(Busy), b;
      }
      if grant.Kept? && step.mode.adopt {
        return None, b;
      }
      owned := step.body.(owner := Some(leases[t].token));
      CommittedState(Seen(), t, m, owned);
      var ok := WriteState(t, m, owned);
      fault := if ok then None else Some(Interrupted);
    }

    /** Second half of `resolve`: file the resolution and settle the attempt this store owns. */
    method SettleAttempt(t: Target, b: Body, retry: bool, reason: string, note: string) returns (r: Reply)
      requires directory.disk.manifest.Some?
      modifies this, directory, lockFiles, process
      ensures var (v, out) := Execute(old(Seen()), t, b.owner, Settled(b, retry, reason, note));
              (Seen(), r) == (v, Concluded(out, Done, Done))
    {
      hide Accepts;
      hide ValidManifest;
      hide CommitWrites;
      hide ApplyAll;
      hide Execute;
      hide WriteAll;
      hide Committing;
      hide Acquire;
      hide Holds;
      hide Release;
      ghost var v := Seen();
      ghost var step := Settled(b, retry, reason, note);
      WholeStep(v, t, b.owner, step);
      var held := RequireTargetLease(t, b.owner);
      if !held {
        return Raised(Busy);
      }
      var m := directory.disk.manifest.value;
      var ok := WriteFiles([PutResolution(b.target, b.attempt, reason)]);
      if !ok {
        return Raised(Interrupted);
      }
      NoFiles(Seen().(locks := Release(Locking(), t)));
      var next;
      if retry {
        next := b.(status := RetryScheduled, nextAttempt := b.attempt + 1, resolved := true, note := note);
      } else {
        next := b.(status := Failed, resolved := true, note := note);
      }
      ok := ClearAndWrite(t, m, next);
      return if ok then Done else Raised(Interrupted);
    }

    method Resolve(t: Target, attempt: int, retry: bool, reason: string, note: string) returns (r: Reply)
      modifies this, directory, lockFiles, process
      ensures (Seen(), r) == Perform(old(Seen()), Operation.Resolve(t, attempt, retry, reason), note)
    {
      hide Accepts;
      hide ValidManifest;
      hide CommitWrites;
      hide ApplyAll;
      hide Execute;
      hide WriteAll;
      hide Committing;
      hide Acquire;
      hide Holds;
      hide Release;
      hide Load;
      hide Settled;
      if reason == "" {
        return Raised(Refused);
      }
      var state := RequiredState(t);
      if state.None? {
        return Raised(Untrusted);
      }
      var b := state.value.snapshot.body;
      var fault;
      if b.attempt == attempt && b.status.Running? && b.effect {
        fault, b := OwnAttempt(t, b, Write1(Claim(true, false), b.(status := Ambiguous, note := note), TakeOwner));
      } else if b.attempt == attempt && b.status.Ambiguous? {
        fault, b := OwnAttempt(t, b, Write1(Claim(true, true), b.(note := note), TakeOwner));
      } else {
        return Raised(Refused);
      }
      if fault.Some? {
        return Raised(fault.value);
      }
      r := SettleAttempt(t, b, retry, reason, note);
    }

    /** Write the receipt under a free name and check the decision that refers to it. */
    method WriteRecoveryReceipt(m: Manifest, b: Body, to: int, decision: Decision, receipt: RecoveryReceipt,
                                ghost step: Step)
      returns (fault: Option<Fault>, entry: Option<LedgerEntry>)
      requires step.before == [] && step.blocked.None? && step.decided.None?
      modifies directory
      ensures var given := WithReceipt(step, b, to, decision, receipt, LedgerOf(m, b.target),
                                       old(directory.disk.recoveries));
              var (v, early) := WriteAll(old(Seen()), given.before);
              && Seen() == v
              && fault == (if !early then Some(Interrupted) else given.blocked)
              && (fault.None? ==> entry == given.decided && entry.Some?)
    {
      hide ValidLedger;
      if !UsableTime(receipt.time) {
        NoFiles(Seen());
        return Some(Refused), None;
      }
      var file := FindFreeName(directory.disk.recoveries.Keys, receipt.time.value);
      var recoveries := directory.disk.recoveries[file := receipt];
      var ok := WriteFiles([PutRecovery(file, receipt)]);
      if !ok {
        return Some(Interrupted), None;
      }
      var e := LedgerEntry(b.target, b.attempt, to, decision, file, receipt);
      ok := ValidateDecisions(b.target, LedgerOf(m, b.target) + [e], recoveries);
      if !ok {
        return Some(Untrusted), None;
      }
      return None, Some(e);
    }

    /** Queue the recovery attempt of a failed state nothing was decided about. */
    method QueueAttempt(t: Target, m: Manifest, b: Body, from: int, to: int, payload: Option<Decision>,
                        receipt: Option<RecoveryReceipt>, note: string) returns (r: Reply)
      requires directory.disk.manifest == Some(m) && StateAt(directory.disk, t).Some?
      requires StateAt(directory.disk, t).value.snapshot.body == b
      requires DecideSchedule(directory.disk.folders[t], m, directory.disk.recoveries, from, to, payload, receipt,
                              note).Advance?
      modifies this, directory, lockFiles, process
      ensures var verdict := old(DecideSchedule(directory.disk.folders[t], m, directory.disk.recoveries, from, to,
                                                payload, receipt, note));
              var (v, out) := Execute(old(Seen()), t, b.owner, verdict.step);
              (Seen(), r) == (v, Concluded(out, Done, Done))
    {
      hide Accepts;
      hide ValidManifest;
      hide CommitWrites;
      hide ApplyAll;
      hide Execute;
      hide WriteAll;
      hide Committing;
      hide Acquire;
      hide Holds;
      hide Release;
      hide WithReceipt;
      hide AlreadyDecided;
      hide ValidLedger;
      ghost var v := Seen();
      ghost var step := DecideSchedule(directory.disk.folders[t], m, directory.disk.recoveries, from, to, payload,
                                       receipt, note).step;
      ghost var claim := Write1(Claim(false, false), Rescheduled(b, None, note), ClearOwner);
      if receipt.Some? && receipt.value.decision.Some? {
        ReceiptKeepsStep(claim, b, to, receipt.value.decision.value, receipt.value, LedgerOf(m, b.target),
                         directory.disk.recoveries);
      }
      WholeStep(v, t, b.owner, step);
      var grant := AcquireTargetLease(t, b.owner, false);
      if grant.Denied? {
        return Raised(Busy);
      }
      NoFiles(Seen());
      NoFiles(Seen().(locks := Release(Locking(), t)));
      if to in directory.disk.folders[t].receipts {
        return Raised(Refused);
      }
      var ok;
      if receipt.None? {
        ok := ClearAndWrite(t, m, Rescheduled(b, None, note));
      } else {
        var decision := receipt.value.decision;
        if decision.None? || decision.value.FailForGood? || (payload.Some? && payload != decision) {
          return Raised(Refused);
        }
        var fault, entry := WriteRecoveryReceipt(m, b, to, decision.value, receipt.value, claim);
        if fault.Some? {
          return Raised(fault.value);
        }
        NoFiles(Seen().(locks := Release(Locking(), t)));
        ok := ClearAndWrite(t, Decided(m, t, entry),
                            Rescheduled(b, Some(RecoveryMark(decision.value, entry.value.file, receipt.value)), note));
      }
      return if ok then Done else Raised(Interrupted);
    }

    method ScheduleRecovery(t: Target, from: int, to: int, payload: Option<Decision>, receipt: Option<RecoveryReceipt>,
                            note: string) returns (r: Reply)
      modifies this, directory, lockFiles, process
      ensures (Seen(), r) == Perform(old(Seen()), Operation.ScheduleRecovery(t, from, to, payload, receipt), note)
    {
      hide Accepts;
      hide ValidManifest;
      hide CommitWrites;
      hide ApplyAll;
      hide Execute;
      hide WriteAll;
      hide Committing;
      hide Acquire;
      hide Holds;
      hide Release;
      hide WithReceipt;
      hide AlreadyDecided;
      var state := RequiredState(t);
      if state.None? {
        return Raised(Untrusted);
      }
      var b := state.value.snapshot.body;
      var m := directory.disk.manifest.value;
      if !b.status.Failed? || b.attempt != from || b.recovery.Some? {
        return Raised(Refused);
      }
      if !m.status.RunFailed? || AlreadyDecided(b, LedgerOf(m, b.target)) || to != from + 1 {
        return Raised(Refused);
      }
      r := QueueAttempt(t, m, b, from, to, payload, receipt, note);
    }

    /** The step of a recovery decision about a failed attempt. */
    ghost function DecisionStep(b: Body, to: int, decision: Decision, receipt: RecoveryReceipt, note: string): Step
      requires directory.disk.manifest.Some?
      reads this, directory
    {
      var claim := Write1(Claim(false, false), if decision.FailForGood? then b else Rescheduled(b, None, note),
                          ClearOwner);
      var ledger := LedgerOf(directory.disk.manifest.value, b.target);
      var step := WithReceipt(claim, b, to, decision, receipt, ledger, directory.disk.recoveries);
      if decision.FailForGood? then step.(snapshot := false) else Marked(step, b, decision, receipt, note)
    }

    method CommitDecision(t: Target, m: Manifest, b: Body, to: int, decision: Decision, receipt: RecoveryReceipt,
                          note: string)
      returns (r: Reply)
      requires directory.disk.manifest == Some(m)
      modifies this, directory, lockFiles, process
      ensures var (v, out) := Execute(old(Seen()), t, b.owner, old(DecisionStep(b, to, decision, receipt, note)));
              (Seen(), r) == (v, Concluded(out, Done, Done))
    {
      hide Accepts;
      hide ValidManifest;
      hide CommitWrites;
      hide ApplyAll;
      hide Execute;
      hide WriteAll;
      hide Committing;
      hide Acquire;
      hide Holds;
      hide Release;
      hide WithReceipt;
      ghost var v := Seen();
      ghost var step := DecisionStep(b, to, decision, receipt, note);
      ghost var claim := Write1(Claim(false, false), if decision.FailForGood? then b else Rescheduled(b, None, note),
                                ClearOwner);
      ReceiptKeepsStep(claim, b, to, decision, receipt, LedgerOf(m, b.target), directory.disk.recoveries);
      if step.snapshot {
        WholeStep(v, t, b.owner, step);
      } else {
        ManifestStep(v, t, b.owner, step);
      }
      var grant := AcquireTargetLease(t, b.owner, false);
      if grant.Denied? {
        return Raised(Busy);
      }
      var fault, entry := WriteRecoveryReceipt(m, b, to, decision, receipt, claim);
      if fault.Some? {
        return Raised(fault.value);
      }
      var ok;
      if decision.FailForGood? {
        ReleaseTargetLease(t);
        ok := WriteFiles([PutManifest(Decided(m, t, entry))]);
        if ok {
          generation := Some(m.generation);
        }
      } else {
        NoFiles(Seen().(locks := Release(Locking(), t)));
        ok := ClearAndWrite(t, Decided(m, t, entry),
                            Rescheduled(b, Some(RecoveryMark(decision, entry.value.file, receipt)), note));
      }
      return if ok then Done else Raised(Interrupted);
    }

    method RecordRecoveryDecision(t: Target, from: int, decision: Decision, payload: Option<Decision>,
                                  receipt: RecoveryReceipt, note: string) returns (r: Reply)
      modifies this, directory, lockFiles, process
      ensures (Seen(), r) == Perform(old(Seen()), RecordRecovery(t, from, decision, payload, receipt), note)
    {
      hide Accepts;
      hide ValidManifest;
      hide CommitWrites;
      hide ApplyAll;
      hide Execute;
      hide WriteAll;
      hide Committing;
      hide Acquire;
      hide Holds;
      hide Release;
      hide WithReceipt;
      hide AlreadyDecided;
      var state := RequiredState(t);
      if state.None? {
        return Raised(Untrusted);
      }
      var b := state.value.snapshot.body;
      var m := directory.disk.manifest.value;
      if from < 1 || !b.status.Failed? || b.attempt != from || b.recovery.Some? {
        return Raised(Refused);
      }
      if !m.status.RunFailed? || AlreadyDecided(b, LedgerOf(m, b.target)) {
        return Raised(Refused);
      }
      if (payload.Some? && payload.value != decision)
        || (receipt.decision.Some? && receipt.decision.value != decision) {
        return Raised(Refused);
      }
      var to := if decision.FailForGood? then from else from + 1;
      if !decision.FailForGood? && to in directory.disk.folders[t].receipts {
        return Raised(Refused);
      }
      r := CommitDecision(t, m, b, to, decision, receipt, note);
    }

    method Initialize(identity: string) returns (r: Reply)
      modifies this`generation, this`fencing, directory
      ensures (Seen(), r) == Perform(old(Seen()), Operation.Initialize(identity), "")
    {
      hide Accepts;
      hide ValidManifest;
      hide ApplyAll;
      if directory.disk.manifest.None? {
        if directory.disk.folders != map[] || directory.disk.recoveries != map[] {
          return Raised(Refused);
        }
        var written := WriteFiles([PutManifest(NewManifest(identity))]);
        if !written {
          return Raised(Interrupted);
        }
        generation, fencing := Some(0), true;
        return Done;
      }
      var m := directory.disk.manifest.value;
      var ok := ValidateManifest(m, directory.disk.recoveries);
      if !ok {
        return Raised(Untrusted);
      }
      generation, fencing := Some(m.generation), true;
      if m.identity != identity {
        return Raised(Refused);
      }
      ok := ValidateRun(directory.disk);
      return if ok then Done else Raised(Untrusted);
    }

    /** The publication itself, once generation and states were checked. */
    method PublishStatus(m: Manifest, status: RunStatus, pending: seq<Target>, ambiguous: seq<Target>)
      returns (r: Reply)
      requires directory.disk.manifest == Some(m)
      modifies this`generation, this`admission, this`mutated, directory
      ensures (Seen(), r) == PublishChecked(old(Seen()), status, pending, ambiguous)
    {
      hide Accepts;
      hide ApplyAll;
      hide Admitted;
      hide WriteAll;
      hide States;
      if m.status.RunCompleted? && status.RunRunning? {
        admission, mutated := Some(m.generation), false;
        return Done;
      }
      if !Admitted(m, States(directory.disk), status, mutated, admission) {
        return Raised(Refused);
      }
      if m.status.RunRunning? && status.RunRunning? {
        mutated := false;
        return Done;
      }
      var published := m.(status := status, pending := pending, ambiguous := ambiguous, generation := m.generation + 1);
      var ok := WriteFiles([PutManifest(published)]);
      if !ok {
        return Raised(Interrupted);
      }
      generation, admission, mutated := Some(published.generation), None, false;
      return Done;
    }

    method UpdateManifest(status: RunStatus, pending: seq<Target>, ambiguous: seq<Target>) returns (r: Reply)
      modifies this`generation, this`fencing, this`admission, this`mutated, directory
      ensures (Seen(), r) == Perform(old(Seen()), Publish(status, pending, ambiguous), "")
    {
      hide Accepts;
      hide ValidManifest;
      hide ApplyAll;
      hide Admitted;
      hide WriteAll;
      hide States;
      if directory.disk.manifest.None? {
        return Raised(Untrusted);
      }
      var m := directory.disk.manifest.value;
      var ok := ValidateManifest(m, directory.disk.recoveries);
      if !ok {
        return Raised(Untrusted);
      }
      if !fencing {
        generation, fencing := Some(m.generation), true;
      }
      if generation.Some? && generation.value != m.generation {
        return Raised(Stale);
      }
      ok := ValidateRun(directory.disk);
      if !ok {
        return Raised(Untrusted);
      }
      r := PublishStatus(m, status, pending, ambiguous);
    }
  }

  /** Committing one body under a manifest read before. */
  function Committing(v: View, t: Target, m: Manifest, body: Body): (View, bool) {
    var (v1, done) := WriteAll(v, CommitWrites(m, t, body));
    (if done then v1.(generation := Some(m.generation), mutated := true) else v1, done)
  }

  lemma NoFiles(v: View)
    ensures WriteAll(v, []) == (v, true)
  {
  }

  lemma WriteTwice(v: View, first: seq<Durable.Write>, second: seq<Durable.Write>)
    ensures var (v1, ok) := WriteAll(v, first);
            WriteAll(v, first + second) == if ok then WriteAll(v1, second) else (v1, false)
  {
    if |first| <= v.quota {
      var k := if |first + second| <= v.quota then |second| else v.quota - |first|;
      assert (first + second)[..|first| + k] == first + second[..k];
      assert second[..|second|] == second && (first + second)[..|first + second|] == first + second;
      Effects.ApplyAppended(v.disk, first, second[..k]);
    } else {
      assert (first + second)[..v.quota] == first[..v.quota];
    }
  }

  /** Carrying out a step that commits a snapshot, piece by piece. */
  lemma WholeStep(v: View, t: Target, expected: Option<Token>, step: Step)
    requires v.disk.manifest.Some? && step.snapshot
    ensures var (locks, grant) := Settle(v.locks, t, expected, step.mode);
            grant.Denied? ==> Execute(v, t, expected, step) == (v.(locks := locks), Stopped(Busy))
    ensures var (locks, grant) := Settle(v.locks, t, expected, step.mode);
            !grant.Denied? && !(grant.Kept? && step.mode.Claim? && step.mode.adopt) ==>
              var (v1, early) := WriteAll(v.(locks := locks), step.before);
              Execute(v, t, expected, step) ==
                if !early then (v1, Stopped(Interrupted))
                else if step.blocked.Some? then (v1, Stopped(step.blocked.value))
                else
                  var v2 := v1.(locks := if step.owner.ClearOwner? then Release(locks, t) else locks);
                  var (v3, made) := WriteAll(v2, if step.makesFolder then [MakeFolder(t)] else []);
                  if !made then (v3, Stopped(Interrupted))
                  else
                    var (v4, done) := Committing(v3, t, Decided(v.disk.manifest.value, t, step.decided),
                                                 Owned(step.body, step.owner, grant.token));
                    (v4, if done then Finished else Stopped(Interrupted))
  {
    hide Settle;
    hide Release;
    hide CommitWrites;
    hide ApplyAll;
    var (locks, grant) := Settle(v.locks, t, expected, step.mode);
    if !grant.Denied? {
      var v1 := WriteAll(v.(locks := locks), step.before).0;
      var v2 := v1.(locks := if step.owner.ClearOwner? then Release(locks, t) else locks);
      var m' := Decided(v.disk.manifest.value, t, step.decided);
      WriteTwice(v2, if step.makesFolder then [MakeFolder(t)] else [],
                 CommitWrites(m', t, Owned(step.body, step.owner, grant.token)));
    }
  }

  /** The same for a step with nothing to write first. */
  lemma PlainStep(v: View, t: Target, expected: Option<Token>, step: Step)
    requires v.disk.manifest.Some? && step.before == [] && step.blocked.None? && step.snapshot && !step.makesFolder
    ensures var (locks, grant) := Settle(v.locks, t, expected, step.mode);
            grant.Denied? ==> Execute(v, t, expected, step) == (v.(locks := locks), Stopped(Busy))
    ensures var (locks, grant) := Settle(v.locks, t, expected, step.mode);
            var v1 := v.(locks := if step.owner.ClearOwner? then Release(locks, t) else locks);
            !grant.Denied? && !(grant.Kept? && step.mode.Claim? && step.mode.adopt) ==>
              var (v2, done) := Committing(v1, t, Decided(v.disk.manifest.value, t, step.decided),
                                           Owned(step.body, step.owner, grant.token));
              Execute(v, t, expected, step) == (v2, if done then Finished else Stopped(Interrupted))
  {
    hide Settle;
    hide Release;
    hide Execute;
    hide Committing;
    hide ApplyAll;
    WholeStep(v, t, expected, step);
    var (locks, grant) := Settle(v.locks, t, expected, step.mode);
    NoFiles(v.(locks := locks));
    NoFiles(v.(locks := if step.owner.ClearOwner? then Release(locks, t) else locks));
  }

  lemma AdoptedStep(v: View, t: Target, expected: Option<Token>, step: Step)
    requires v.disk.manifest.Some?
    ensures var (locks, grant) := Settle(v.locks, t, expected, step.mode);
            && (grant.Denied? ==> Execute(v, t, expected, step) == (v.(locks := locks), Stopped(Busy)))
            && (grant.Kept? && step.mode.Claim? && step.mode.adopt
                ==> Execute(v, t, expected, step) == (v.(locks := locks), Adopted))
  {
  }

  lemma GrantedLease(l: Locks, t: Target, expected: Option<Token>, fence: bool)
    ensures var (l', grant) := Acquire(l, t, expected, fence);
            !grant.Denied? ==> t in l'.leases && l'.leases[t].token == grant.token
  {
  }

  /** After a commit the state file holds what was committed. */
  lemma CommittedState(v: View, t: Target, m: Manifest, body: Body)
    ensures var (v', done) := Committing(v, t, m, body);
            done ==> v'.disk.manifest.Some? && StateAt(v'.disk, t) == Some(Seal(body, ChainOf(m, t)))
  {
    var rec := Seal(body, ChainOf(m, t));
    Effects.ApplyThree(v.disk, PutState(t, rec), PutReceipt(t, body.attempt, rec), PutManifest(Extended(m, t, rec)));
  }

  /** A step that commits no snapshot only publishes its decision. */
  lemma ManifestStep(v: View, t: Target, expected: Option<Token>, step: Step)
    requires v.disk.manifest.Some? && !step.snapshot
    ensures var (locks, grant) := Settle(v.locks, t, expected, step.mode);
            grant.Denied? ==> Execute(v, t, expected, step) == (v.(locks := locks), Stopped(Busy))
    ensures var (locks, grant) := Settle(v.locks, t, expected, step.mode);
            var m := v.disk.manifest.value;
            !grant.Denied? && !(grant.Kept? && step.mode.Claim? && step.mode.adopt) ==>
              var (v1, early) := WriteAll(v.(locks := locks), step.before);
              Execute(v, t, expected, step) ==
                if !early then (v1, Stopped(Interrupted))
                else if step.blocked.Some? then (v1, Stopped(step.blocked.value))
                else
                  var v2 := v1.(locks := if step.owner.ClearOwner? then Release(locks, t) else locks);
                  var (v3, done) := WriteAll(v2, [PutManifest(Decided(m, t, step.decided))]);
                  (if done then v3.(generation := Some(m.generation)) else v3,
                   if done then Finished else Stopped(Interrupted))
  {
    hide Settle;
    hide Release;
    hide ApplyAll;
  }

  lemma ReceiptKeepsStep(step: Step, b: Body, to: int, decision: Decision, receipt: RecoveryReceipt,
                         ledger: seq<LedgerEntry>, recoveries: map<string, RecoveryReceipt>)
    ensures var s := WithReceipt(step, b, to, decision, receipt, ledger, recoveries);
            s.body == step.body && s.owner == step.owner && s.snapshot == step.snapshot && s.mode == step.mode
            && s.makesFolder == step.makesFolder
  {
  }

  lemma OneMore(d: Disk, ws: seq<Durable.Write>, i: nat)
    requires i < |ws|
    ensures ApplyAll(d, ws[..i + 1]) == Apply(ApplyAll(d, ws[..i]), ws[i])
  {
    Effects.ApplyAppended(d, ws[..i], [ws[i]]);
    assert ws[..i + 1] == ws[..i] + [ws[i]];
    assert ApplyAll(ApplyAll(d, ws[..i]), [ws[i]]) == Apply(ApplyAll(d, ws[..i]), ws[i]);
  }
}
