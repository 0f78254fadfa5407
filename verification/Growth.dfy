/** How one operation changes the receipt chains: not at all, or by lawful snapshots of its target. */
module Growth {
  import opened Wrappers
  import opened Records
  import opened Durable
  import opened Protocol
  import opened Commit
  import opened Leases
  import opened Operations
  import opened Effects
  import opened Decisions

  predicate SameChains(d: Disk, d': Disk) {
    && (d.manifest.Some? ==> d'.manifest.Some? && d'.manifest.value.chains == d.manifest.value.chains)
    && (d.manifest.None? && d'.manifest.Some? ==> d'.manifest.value.chains == map[])
  }

  /** Exactly one snapshot was appended, to the chain of `t`. */
  predicate Appended(d: Disk, d': Disk, t: Target, body: Body) {
    && d.manifest.Some? && d'.manifest.Some?
    && var chain := ChainOf(d.manifest.value, t);
       && MayFollow(t, chain, body)
       && d'.manifest.value.chains == d.manifest.value.chains[t := chain + [EntryOf(Seal(body, chain))]]
  }

  /** The chains are the same, or one snapshot was appended to the chain of `t`. */
  ghost predicate OneCommit(d: Disk, d': Disk, t: Target) {
    SameChains(d, d') || exists body :: Appended(d, d', t, body)
  }

  lemma AppendedIsRecorded(d: Disk, d': Disk, t: Target, body: Body)
    requires ChainsRecorded(d) && Appended(d, d', t, body)
    ensures ChainsRecorded(d')
    ensures History(ChainOf(d'.manifest.value, t)) == History(ChainOf(d.manifest.value, t)) + [body]
  {
    var chain := ChainOf(d.manifest.value, t);
    assert Recorded(t, chain);
    RecordedGrows(t, chain, body);
    forall u | u in d'.manifest.value.chains
      ensures Recorded(u, d'.manifest.value.chains[u])
    {
      if u != t {
        assert Recorded(u, d.manifest.value.chains[u]);
      }
    }
  }

  /** The token a step writes, and whether it gets that far. */
  function TokenFor(v: View, t: Target, expected: Option<Token>, step: Step): Token {
    var grant := Settle(v.locks, t, expected, step.mode).1;
    if grant.Denied? then 0 else grant.token
  }

  lemma ExecuteEffect(v: View, t: Target, expected: Option<Token>, step: Step)
    requires v.disk.manifest.Some? && LawfulStep(ChainOf(v.disk.manifest.value, t), t, step)
    ensures var (v', out) := Execute(v, t, expected, step);
            var body := Owned(step.body, step.owner, TokenFor(v, t, expected, step));
            if out.Finished? && step.snapshot then Appended(v.disk, v'.disk, t, body)
            else SameChains(v.disk, v'.disk) && v'.disk.manifest.Some?
    ensures Execute(v, t, expected, step).1.Adopted? ==> step.mode.Claim? && step.mode.adopt
  {
    var (locks, grant) := Settle(v.locks, t, expected, step.mode);
    if !grant.Denied? && !(grant.Kept? && step.mode.Claim? && step.mode.adopt) {
      FinishPublishes(v.(locks := locks), t, step, grant.token);
    }
  }

  /** Lawfulness of whatever `Decide` answers on an accepted run. */
  lemma DecisionIsLawful(op: Operation, note: string, d: Disk)
    requires Accepts(d) && ChainsRecorded(d) && (OnExistingState(op) || op.Prepare?)
    ensures var v := Decide(op, note, d);
            v.Advance? ==> LawfulStep(ChainOf(d.manifest.value, op.target), op.target, v.step)
  {
    var t := op.target;
    var chain := ChainOf(d.manifest.value, t);
    var state := StateAt(d, t);
    if state.Some? {
      AcceptedState(d, t);
    } else {
      AcceptedAbsence(d, t);
    }
    if op.Prepare? {
      PrepareIsLawful(state, chain, t, op.identity, op.due, note);
    } else if state.Some? {
      UpdateIsLawful(op, note, d.folders[t], d.manifest.value, d.recoveries, chain);
    }
  }

  /** What a decided operation did to the chains, and what its reply means. */
  predicate Explains(d: Disk, d': Disk, op: Operation, reply: Reply, body: Body)
    requires OnExistingState(op) || op.Prepare?
  {
    var grew := d'.manifest.Some? && d.manifest.Some? && d'.manifest.value.chains != d.manifest.value.chains;
    && (if grew then Appended(d, d', op.target, body) else SameChains(d, d'))
    && (op.Prepare? && reply.Proceed? ==>
          d'.manifest.Some? && |ChainOf(d'.manifest.value, op.target)| > 0
          && Runs(LastBody(d'.manifest.value, op.target), reply.attempt))
    && (op.MarkSideEffect? && reply.Done? ==>
          grew && StateAt(d, op.target).Some? && Crossed(body, StateAt(d, op.target).value.snapshot.body.attempt))
    && (op.MarkCheckpoint? && reply.Done? ==>
          grew && StateAt(d, op.target).Some? && Checkpointed(body, StateAt(d, op.target).value.snapshot.body.attempt))
    && (grew && body.status.CheckpointPending? ==> op.MarkCheckpoint? && reply.Done?)
    && (grew && body.status.RetryScheduled? ==> SchedulesRetry(op, body))
  }

  function LastBody(m: Manifest, t: Target): Body
    requires |ChainOf(m, t)| > 0
  {
    ChainOf(m, t)[|ChainOf(m, t)| - 1].digest.snapshot.body
  }

  lemma AppendedLast(d: Disk, d': Disk, t: Target, body: Body)
    requires Appended(d, d', t, body)
    ensures |ChainOf(d'.manifest.value, t)| > 0 && LastBody(d'.manifest.value, t) == body
    ensures d'.manifest.value.chains != d.manifest.value.chains
  {
    assert |ChainOf(d'.manifest.value, t)| == |ChainOf(d.manifest.value, t)| + 1;
  }

  /** The body a decided step commits, if it gets that far. */
  function BodyFor(v: View, op: Operation, note: string): Body
    requires v.disk.manifest.Some? && (OnExistingState(op) || op.Prepare?)
    requires Decide(op, note, v.disk).Advance?
  {
    var step := Decide(op, note, v.disk).step;
    Owned(step.body, step.owner, TokenFor(v, op.target, OwnerOf(v.disk, op.target), step))
  }

  lemma PrepareEffect(v: View, op: Operation, note: string)
    requires op.Prepare? && v.disk.manifest.Some? && Accepts(v.disk) && ChainsRecorded(v.disk)
             && Decide(op, note, v.disk).Advance?
    ensures var verdict := Decide(op, note, v.disk);
            var (v', out) := Execute(v, op.target, OwnerOf(v.disk, op.target), verdict.step);
            Explains(v.disk, v'.disk, op, Concluded(out, verdict.reply, verdict.reply), BodyFor(v, op, note))
            && v'.disk.manifest.Some?
  {
    hide Execute;
    hide Accepts;
    hide DecidePrepare;
    hide Appended;
    hide LawfulStep;
    var t := op.target;
    var chain := ChainOf(v.disk.manifest.value, t);
    var verdict := Decide(op, note, v.disk);
    if StateAt(v.disk, t).Some? {
      AcceptedState(v.disk, t);
    } else {
      AcceptedAbsence(v.disk, t);
    }
    PrepareIsLawful(StateAt(v.disk, t), chain, t, op.identity, op.due, note);
    var (v', out) := Execute(v, t, OwnerOf(v.disk, t), verdict.step);
    ExecuteEffect(v, t, OwnerOf(v.disk, t), verdict.step);
    if out.Finished? {
      AppendedLast(v.disk, v'.disk, t, BodyFor(v, op, note));
    }
  }

  lemma FinishedIsUnblocked(v: View, t: Target, expected: Option<Token>, step: Step)
    requires v.disk.manifest.Some?
    ensures Execute(v, t, expected, step).1.Finished? ==> step.blocked.None?
  {
    hide Settle;
    hide FinalWrites;
    hide ApplyAll;
  }

  lemma UpdateEffect(v: View, op: Operation, note: string)
    requires OnExistingState(op) && v.disk.manifest.Some? && Accepts(v.disk) && ChainsRecorded(v.disk)
             && Decide(op, note, v.disk).Advance?
    ensures var verdict := Decide(op, note, v.disk);
            var (v', out) := Execute(v, op.target, OwnerOf(v.disk, op.target), verdict.step);
            Explains(v.disk, v'.disk, op, Concluded(out, verdict.reply, verdict.reply), BodyFor(v, op, note))
            && v'.disk.manifest.Some?
  {
    hide Execute;
    hide Accepts;
    hide DecideUpdate;
    hide Appended;
    hide LawfulStep;
    var t := op.target;
    var verdict := Decide(op, note, v.disk);
    DecisionIsLawful(op, note, v.disk);
    UpdateMeaning(op, note, v.disk.folders[t], v.disk.manifest.value, v.disk.recoveries);
    var (v', out) := Execute(v, t, OwnerOf(v.disk, t), verdict.step);
    ExecuteEffect(v, t, OwnerOf(v.disk, t), verdict.step);
    FinishedIsUnblocked(v, t, OwnerOf(v.disk, t), verdict.step);
    if out.Finished? && verdict.step.snapshot {
      AppendedLast(v.disk, v'.disk, t, BodyFor(v, op, note));
    }
  }

  lemma NothingHappened(d: Disk, op: Operation, reply: Reply, body: Body)
    requires OnExistingState(op) || op.Prepare?
    requires !(op.Prepare? && reply.Proceed?) && !((op.MarkSideEffect? || op.MarkCheckpoint?) && reply.Done?)
    ensures Explains(d, d, op, reply, body)
  {
  }

  lemma DecidedEffect(v: View, op: Operation, note: string) returns (body: Body)
    requires ChainsRecorded(v.disk) && (OnExistingState(op) || op.Prepare?)
    ensures var (v', reply) := PerformDecided(v, op, note);
            Explains(v.disk, v'.disk, op, reply, body)
            && (v'.disk.manifest.None? <==> v.disk.manifest.None?)
  {
    hide Execute;
    hide Accepts;
    hide DecidePrepare;
    hide DecideUpdate;
    hide Explains;
    body := StartBody("", 0, Identity(None, "", ""), "");
    var (v1, ok) := Load(v);
    var (v', reply) := PerformDecided(v, op, note);
    if ok && Decide(op, note, v1.disk).Advance? {
      body := BodyFor(v1, op, note);
      if op.Prepare? {
        PrepareEffect(v1, op, note);
      } else {
        UpdateEffect(v1, op, note);
      }
    } else {
      if ok {
        QuietAnswers(op, note, v1.disk);
      }
      NothingHappened(v.disk, op, reply, body);
    }
  }

  lemma QuietAnswers(op: Operation, note: string, d: Disk)
    requires d.manifest.Some? && (OnExistingState(op) || op.Prepare?)
    ensures var v := Decide(op, note, d);
            v.Answer? ==> !v.reply.Proceed? && !op.MarkSideEffect? && !op.MarkCheckpoint?
  {
    hide DecideUpdate;
    if StateAt(d, op.target).Some? && !op.Prepare? {
      NoAnswerMarks(op, note, d.folders[op.target], d.manifest.value, d.recoveries);
    }
  }

  /** The marking operations never answer without writing, and `Prepare` answers `Proceed` only by a step. */
  lemma NoAnswerMarks(op: Operation, note: string, f: Folder, m: Manifest, recoveries: map<string, RecoveryReceipt>)
    requires OnExistingState(op) && f.state.Some?
    ensures var v := DecideUpdate(op, note, f, m, recoveries);
            v.Answer? ==> !op.MarkSideEffect? && !op.MarkCheckpoint? && !v.reply.Proceed?
  {
  }

  /** Only the chain of `t` may have grown, and only by snapshots with the given statuses. */
  ghost predicate GrowsBy(d: Disk, d': Disk, t: Target, added: set<Status>) {
    && (d.manifest.Some? ==> d'.manifest.Some?)
    && (d.manifest.Some? ==> forall u ::
          && ChainOf(d.manifest.value, u) <= ChainOf(d'.manifest.value, u)
          && (u != t ==> ChainOf(d'.manifest.value, u) == ChainOf(d.manifest.value, u))
          && forall i :: |ChainOf(d.manifest.value, u)| <= i < |ChainOf(d'.manifest.value, u)| ==>
               ChainOf(d'.manifest.value, u)[i].digest.snapshot.body.status in added)
    && (d.manifest.None? && d'.manifest.Some? ==> forall u :: ChainOf(d'.manifest.value, u) == [])
  }

  lemma SameGrowsByNothing(d: Disk, d': Disk, t: Target, added: set<Status>)
    requires SameChains(d, d')
    ensures GrowsBy(d, d', t, added)
    ensures ChainsRecorded(d) ==> ChainsRecorded(d')
  {
  }

  lemma AppendedGrows(d: Disk, d': Disk, t: Target, body: Body, added: set<Status>)
    requires Appended(d, d', t, body) && body.status in added
    ensures GrowsBy(d, d', t, added)
  {
    var chain := ChainOf(d.manifest.value, t);
    forall u
      ensures ChainOf(d'.manifest.value, u) == if u == t then chain + [EntryOf(Seal(body, chain))]
              else ChainOf(d.manifest.value, u)
    {
    }
  }

  lemma GrowsTwice(d0: Disk, d1: Disk, d2: Disk, t: Target, added: set<Status>)
    requires GrowsBy(d0, d1, t, added) && GrowsBy(d1, d2, t, added) && d0.manifest.Some?
    ensures GrowsBy(d0, d2, t, added)
  {
    forall u, i | |ChainOf(d0.manifest.value, u)| <= i < |ChainOf(d2.manifest.value, u)|
      ensures ChainOf(d2.manifest.value, u)[i].digest.snapshot.body.status in added
    {
      if i < |ChainOf(d1.manifest.value, u)| {
        assert ChainOf(d2.manifest.value, u)[i] == ChainOf(d1.manifest.value, u)[i];
      }
    }
  }

  lemma OwningIsLawful(b: Body, chain: seq<Entry>, t: Target, attempt: int, note: string)
    requires Heads(chain, t, b)
    ensures var first := OwnAmbiguous(b, attempt, note);
            first.Some? ==>
              LawfulStep(chain, t, first.value) && first.value.snapshot && first.value.body.status.Ambiguous?
                            && first.value.owner.TakeOwner? && first.value.decided.None? && first.value.blocked.None?
                            && first.value.mode.Claim? && first.value.mode.fence
                            && (first.value.mode.adopt ==> b.status.Ambiguous?)
  {
  }

  lemma SettlingIsLawful(b: Body, chain: seq<Entry>, t: Target, retry: bool, reason: string, note: string)
    requires Heads(chain, t, b) && b.status.Ambiguous?
    ensures LawfulStep(chain, t, Settled(b, retry, reason, note))
  {
  }

  /** A finished snapshot step leaves exactly its record as the state of its target. */
  lemma FinishLanded(v: View, t: Target, step: Step, token: Token)
    requires v.disk.manifest.Some? && EarlyFiles(t, step.before) && step.snapshot && step.body.target == t
    ensures var (v', out) := Finish(v, t, step, token);
            var m := v.disk.manifest.value;
            var d1 := ApplyAll(v.disk, step.before);
            var rec := Seal(Owned(step.body, step.owner, token), ChainOf(m, t));
            out.Finished? ==>
              v'.disk == Disk(Some(Published(m, t, step, token)),
                              d1.folders[t := Committed(FolderOf(d1, t), rec)], d1.recoveries)
  {
    StepLanded(ApplyAll(v.disk, step.before), v.disk.manifest.value, t, step, token);
  }

  lemma ExecuteLanded(v: View, t: Target, expected: Option<Token>, step: Step)
    requires v.disk.manifest.Some? && EarlyFiles(t, step.before) && step.snapshot && step.body.target == t
    ensures var (v', out) := Execute(v, t, expected, step);
            var m := v.disk.manifest.value;
            var token := TokenFor(v, t, expected, step);
            var d1 := ApplyAll(v.disk, step.before);
            var rec := Seal(Owned(step.body, step.owner, token), ChainOf(m, t));
            && (out.Finished? ==>
                  v'.disk == Disk(Some(Published(m, t, step, token)),
                                  d1.folders[t := Committed(FolderOf(d1, t), rec)], d1.recoveries))
            && (out.Adopted? ==> v'.disk == v.disk)
  {
    var (locks, grant) := Settle(v.locks, t, expected, step.mode);
    if !grant.Denied? && !(grant.Kept? && step.mode.Claim? && step.mode.adopt) {
      FinishLanded(v.(locks := locks), t, step, grant.token);
    }
  }

  /** The first half of `resolve` leaves the target ambiguous, with the chain to match. */
  lemma OwningEffect(v: View, t: Target, attempt: int, note: string, added: set<Status>)
    requires v.disk.manifest.Some? && Accepts(v.disk) && ChainsRecorded(v.disk)
    requires StateAt(v.disk, t).Some?
    requires OwnAmbiguous(StateAt(v.disk, t).value.snapshot.body, attempt, note).Some? && Status.Ambiguous in added
    ensures var step := OwnAmbiguous(StateAt(v.disk, t).value.snapshot.body, attempt, note).value;
            var (v2, out) := Execute(v, t, OwnerOf(v.disk, t), step);
            && v2.disk.manifest.Some? && GrowsBy(v.disk, v2.disk, t, added) && OneCommit(v.disk, v2.disk, t)
               && ChainsRecorded(v2.disk)
            && (!out.Stopped? ==>
                  && StateAt(v2.disk, t).Some?
                  && Heads(ChainOf(v2.disk.manifest.value, t), t, StateAt(v2.disk, t).value.snapshot.body)
                  && StateAt(v2.disk, t).value.snapshot.body.status.Ambiguous?)
  {
    hide Execute;
    hide Accepts;
    var b := StateAt(v.disk, t).value.snapshot.body;
    var chain := ChainOf(v.disk.manifest.value, t);
    AcceptedState(v.disk, t);
    OwningIsLawful(b, chain, t, attempt, note);
    var step := OwnAmbiguous(b, attempt, note).value;
    ExecuteEffect(v, t, OwnerOf(v.disk, t), step);
    ExecuteLanded(v, t, OwnerOf(v.disk, t), step);
    var (v2, out) := Execute(v, t, OwnerOf(v.disk, t), step);
    if out.Finished? {
      var body := Owned(step.body, step.owner, TokenFor(v, t, OwnerOf(v.disk, t), step));
      AppendedGrows(v.disk, v2.disk, t, body, added);
      AppendedIsRecorded(v.disk, v2.disk, t, body);
      AppendedLast(v.disk, v2.disk, t, body);
    } else {
      SameGrowsByNothing(v.disk, v2.disk, t, added);
    }
  }

  lemma SettlingEffect(v: View, t: Target, b: Body, retry: bool, reason: string, note: string, added: set<Status>)
    requires v.disk.manifest.Some? && ChainsRecorded(v.disk)
    requires Heads(ChainOf(v.disk.manifest.value, t), t, b) && b.status.Ambiguous?
    requires (if retry then RetryScheduled else Failed) in added
    ensures var v3 := Execute(v, t, b.owner, Settled(b, retry, reason, note)).0;
            v3.disk.manifest.Some? && GrowsBy(v.disk, v3.disk, t, added) && OneCommit(v.disk, v3.disk, t)
              && ChainsRecorded(v3.disk)
  {
    hide Execute;
    var chain := ChainOf(v.disk.manifest.value, t);
    var step := Settled(b, retry, reason, note);
    SettlingIsLawful(b, chain, t, retry, reason, note);
    ExecuteEffect(v, t, b.owner, step);
    var (v3, out) := Execute(v, t, b.owner, step);
    if out.Finished? {
      var body := Owned(step.body, step.owner, TokenFor(v, t, b.owner, step));
      AppendedGrows(v.disk, v3.disk, t, body, added);
      AppendedIsRecorded(v.disk, v3.disk, t, body);
    } else {
      SameGrowsByNothing(v.disk, v3.disk, t, added);
    }
  }

  /** `mid` is the disk between the two halves. */
  lemma ResolveEffect(v: View, t: Target, attempt: int, retry: bool, reason: string, note: string) returns (mid: Disk)
    requires ChainsRecorded(v.disk)
    ensures var v' := PerformResolve(v, t, attempt, retry, reason, note).0;
            && GrowsBy(v.disk, v'.disk, t, {Status.Ambiguous, if retry then RetryScheduled else Failed})
               && ChainsRecorded(v'.disk)
            && ChainsRecorded(mid) && OneCommit(v.disk, mid, t) && OneCommit(mid, v'.disk, t)
  {
    hide Execute;
    hide Accepts;
    hide GrowsBy;
    hide ChainsRecorded;
    hide Heads;
    hide OwnAmbiguous;
    hide Settled;
    var added := {Status.Ambiguous, if retry then RetryScheduled else Failed};
    SameGrowsByNothing(v.disk, v.disk, t, added);
    mid := v.disk;
    var (v1, ok) := Load(v);
    if reason != "" && ok && StateAt(v1.disk, t).Some? {
      var first := OwnAmbiguous(StateAt(v1.disk, t).value.snapshot.body, attempt, note);
      if first.Some? {
        OwningEffect(v1, t, attempt, note, added);
        var (v2, out) := Execute(v1, t, OwnerOf(v1.disk, t), first.value);
        mid := v2.disk;
        if !out.Stopped? {
          var b := StateAt(v2.disk, t).value.snapshot.body;
          SettlingEffect(v2, t, b, retry, reason, note, added);
          var v3 := Execute(v2, t, b.owner, Settled(b, retry, reason, note)).0;
          GrowsTwice(v1.disk, v2.disk, v3.disk, t, added);
        }
      }
    }
  }

  lemma OneManifestWrite(v: View, m: Manifest)
    ensures var (v', ok) := WriteAll(v, [PutManifest(m)]);
            v'.disk == if ok then v.disk.(manifest := Some(m)) else v.disk
  {
    var ws := [PutManifest(m)];
    assert ApplyAll(v.disk, ws) == Apply(v.disk, PutManifest(m));
    assert v.quota == 0 ==> ws[..v.quota] == [];
  }

  lemma ManifestEffect(v: View, op: Operation, note: string)
    requires ChainsRecorded(v.disk) && (op.Initialize? || op.Publish?)
    ensures var v' := Perform(v, op, note).0;
            SameChains(v.disk, v'.disk) && ChainsRecorded(v'.disk)
  {
    hide Accepts;
    hide Admitted;
    var v' := Perform(v, op, note).0;
    OneManifestWrite(v, NewManifest(if op.Initialize? then op.runIdentity else ""));
    if v.disk.manifest.Some? && op.Publish? {
      var m := v.disk.manifest.value;
      var (v1, ok) := Load(v);
      OneManifestWrite(v1,
                       m.(status := op.status, pending := op.pending, ambiguous := op.ambiguous,
                          generation := m.generation + 1));
    }
    assert SameChains(v.disk, v'.disk);
    SameGrowsByNothing(v.disk, v'.disk, "", {});
  }
}
