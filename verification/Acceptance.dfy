/**
  Writers preserve the readers' validator: which finished operations leave a run the readers still
  accept, and exactly which do not.
 */
module Acceptance {
  import opened Wrappers
  import opened Records
  import opened Durable
  import opened Protocol
  import opened Commit
  import opened Leases
  import opened Operations
  import opened RecoveryNames
  import opened Effects
  import opened Decisions
  import opened Growth

  // -------------------------------------------------------- early files

  predicate Harmless(d: Disk, w: Write) {
    match w
    case PutCandidate(t, _, _) => StateAt(d, t).Some? && StateAt(d, t).value.snapshot.body.candidate.None?
    case PutResolution(t, _, _) => StateAt(d, t).Some?
    case PutRecovery(file, _) => file !in d.recoveries
    case _ => false
  }

  lemma MoreRecoveriesKeepTrust(t: Target, f: Folder, chain: seq<Entry>, ledger: seq<LedgerEntry>,
                                recoveries: map<string, RecoveryReceipt>, file: string, r: RecoveryReceipt)
    requires Trusted(t, f, chain, ledger, recoveries) && file !in recoveries
    ensures Trusted(t, f, chain, ledger, recoveries[file := r])
  {
  }

  lemma MoreRecoveriesKeepLedger(t: Target, ledger: seq<LedgerEntry>, recoveries: map<string, RecoveryReceipt>,
                                 file: string, r: RecoveryReceipt)
    requires ValidLedger(t, ledger, recoveries) && file !in recoveries
    ensures ValidLedger(t, ledger, recoveries[file := r])
  {
    assert forall i :: 0 <= i < |ledger| ==> ValidLedgerEntry(t, ledger[i], recoveries);
  }

  lemma EarlyRecovery(d: Disk, file: string, r: RecoveryReceipt)
    requires Accepts(d) && file !in d.recoveries
    ensures Sound(d.(recoveries := d.recoveries[file := r]))
  {
    hide Consistent;
    hide Trusted;
    hide ValidLedger;
    hide ValidChain;
    var d' := d.(recoveries := d.recoveries[file := r]);
    var m := d.manifest.value;
    AcceptedParts(d);
    forall t | t in d'.folders
      ensures TrustedIn(d', t)
    {
      assert TrustedIn(d, t);
      MoreRecoveriesKeepTrust(t, d.folders[t], ChainOf(m, t), LedgerOf(m, t), d.recoveries, file, r);
    }
    forall t | t in m.ledger
      ensures ValidLedger(t, m.ledger[t], d'.recoveries)
    {
      MoreRecoveriesKeepLedger(t, m.ledger[t], d.recoveries, file, r);
    }
  }

  lemma EarlyInFolder(d: Disk, t: Target, f': Folder)
    requires Accepts(d) && t in d.folders && f'.state == d.folders[t].state && f'.receipts == d.folders[t].receipts
    requires f'.candidates == d.folders[t].candidates
             || (f'.state.Some? && f'.state.value.snapshot.body.candidate.None?)
    ensures Sound(d.(folders := d.folders[t := f']))
  {
    hide Consistent;
    hide Trusted;
    hide ValidLedger;
    hide ValidChain;
    var d' := d.(folders := d.folders[t := f']);
    var m := d.manifest.value;
    AcceptedParts(d);
    forall u | u in d'.folders
      ensures TrustedIn(d', u)
    {
      assert TrustedIn(d, u);
      if u == t {
        EarlyFolder(t, d.folders[t], f', ChainOf(m, t), LedgerOf(m, t), d.recoveries);
      }
    }
  }

  /** A file written ahead of a commit changes nothing a reader looks at. */
  lemma EarlyFileKeepsAccepted(d: Disk, w: Write)
    requires Accepts(d) && Harmless(d, w)
    ensures Accepts(Apply(d, w)) && States(Apply(d, w)) == States(d)
    ensures Apply(d, w).manifest == d.manifest
    ensures forall t :: StateAt(Apply(d, w), t) == StateAt(d, t)
  {
    hide Consistent;
    hide Sound;
    var d' := Apply(d, w);
    match w {
      case PutCandidate(t, k, c) => EarlyInFolder(d, t, d'.folders[t]);
      case PutResolution(t, k, s) => EarlyInFolder(d, t, d'.folders[t]);
      case PutRecovery(file, r) => EarlyRecovery(d, file, r);
    }
    assert States(d') == States(d);
  }

  lemma EarlyFolder(t: Target, f: Folder, f': Folder, chain: seq<Entry>, ledger: seq<LedgerEntry>,
                    recoveries: map<string, RecoveryReceipt>)
    requires Trusted(t, f, chain, ledger, recoveries)
    requires f'.state == f.state && f'.receipts == f.receipts
    requires f'.candidates == f.candidates || f.state.value.snapshot.body.candidate.None?
    ensures Trusted(t, f', chain, ledger, recoveries)
  {
    hide RecoveryBound;
    hide LedgerAgrees;
    hide ReceiptsAnchored;
  }

  // -------------------------------------------------------- landed steps

  /** What the ledger and the recovery files must say about the snapshot a step commits. */
  predicate BoundByLedger(m: Manifest, t: Target, step: Step, recoveries: map<string, RecoveryReceipt>) {
    var ledger := LedgerOf(Decided(m, t, step.decided), t);
    && ValidLedger(t, ledger, recoveries)
    && RecoveryBound(step.body, ledger, recoveries)
    && LedgerAgrees(step.body, ledger)
  }

  /** All writes of a step landed: the run is sound exactly when the candidate is bound. */
  lemma LandedStep(d: Disk, t: Target, step: Step, token: Token)
    requires d.manifest.Some? && Accepts(d) && ChainsRecorded(d)
    requires var m := d.manifest.value;
             LawfulStep(ChainOf(m, t), t, step) && step.snapshot && step.blocked.None?
               && BoundByLedger(m, t, step, d.recoveries)
    ensures var m := d.manifest.value;
            var body := Owned(step.body, step.owner, token);
            var rec := Seal(body, ChainOf(m, t));
            var f' := Committed(FolderOf(d, t), rec);
            var d' := Disk(Some(Published(m, t, step, token)), d.folders[t := f'], d.recoveries);
            && (Sound(d') <==> CandidateBound(f', body))
            && States(d') == States(d)[t := rec]
  {
    hide Accepts;
    hide Trusted;
    hide CandidateBound;
    hide RecoveryBound;
    hide LedgerAgrees;
    hide ValidManifest;
    hide MayFollow;
    hide EarlyFiles;
    hide ChainsRecorded;
    hide ValidLedger;
    var m := d.manifest.value;
    var chain := ChainOf(m, t);
    var body := Owned(step.body, step.owner, token);
    var rec := Seal(body, chain);
    var f' := Committed(FolderOf(d, t), rec);
    var d' := Disk(Some(Published(m, t, step, token)), d.folders[t := f'], d.recoveries);
    assert MayFollow(t, chain, body);
    OwnerIsUnbound(step.body, step.owner, token, LedgerOf(Decided(m, t, step.decided), t), d.recoveries);
    LandedFolder(d, t, body, LedgerOf(d'.manifest.value, t));
    LandedElsewhere(d, d', t);
    LandedManifest(d, t, step, token);
    assert ChainOf(d'.manifest.value, t) == chain + [EntryOf(rec)];
    assert TrustedIn(d', t) <==> Trusted(t, f', chain + [EntryOf(rec)], LedgerOf(d'.manifest.value, t), d.recoveries);
    AcceptedParts(d);
    assert States(d') == States(d)[t := rec];
  }

  lemma OwnerIsUnbound(b: Body, rule: OwnerRule, token: Token, ledger: seq<LedgerEntry>,
                       recoveries: map<string, RecoveryReceipt>)
    ensures RecoveryBound(b, ledger, recoveries) <==> RecoveryBound(Owned(b, rule, token), ledger, recoveries)
    ensures LedgerAgrees(b, ledger) <==> LedgerAgrees(Owned(b, rule, token), ledger)
  {
  }

  lemma AcceptedParts(d: Disk)
    requires Accepts(d)
    ensures d.manifest.Some? && ValidManifest(d.manifest.value, d.recoveries)
    ensures forall u :: u in d.folders ==> TrustedIn(d, u)
    ensures forall u :: u in d.manifest.value.chains ==> u in d.folders
  {
  }

  lemma LandedFolder(d: Disk, t: Target, body: Body, ledger: seq<LedgerEntry>)
    requires d.manifest.Some? && Accepts(d) && ChainsRecorded(d)
    requires MayFollow(t, ChainOf(d.manifest.value, t), body)
    requires RecoveryBound(body, ledger, d.recoveries) && LedgerAgrees(body, ledger)
    ensures var chain := ChainOf(d.manifest.value, t);
            var rec := Seal(body, chain);
            var f' := Committed(FolderOf(d, t), rec);
            Trusted(t, f', chain + [EntryOf(rec)], ledger, d.recoveries) <==> CandidateBound(f', body)
  {
    hide CandidateBound;
    hide RecoveryBound;
    hide LedgerAgrees;
    hide Trusted;
    hide MayFollow;
    hide Consistent;
    var m := d.manifest.value;
    var chain := ChainOf(m, t);
    if t in d.folders {
      AcceptedState(d, t);
      assert TrustedIn(d, t);
    } else {
      assert chain == [] && Recorded(t, []);
    }
    CommitTrusted(t, FolderOf(d, t), chain, LedgerOf(m, t), d.recoveries, ledger, d.recoveries, body);
  }

  lemma LandedElsewhere(d: Disk, d': Disk, t: Target)
    requires d.manifest.Some? && d'.manifest.Some? && Accepts(d)
    requires d'.recoveries == d.recoveries && t in d'.folders && d'.folders == d.folders[t := d'.folders[t]]
    requires forall u :: u != t ==> ChainOf(d'.manifest.value, u) == ChainOf(d.manifest.value, u)
                                    && LedgerOf(d'.manifest.value, u) == LedgerOf(d.manifest.value, u)
    ensures forall u :: u in d'.folders && u != t ==> TrustedIn(d', u)
  {
    hide Trusted;
    AcceptedParts(d);
    forall u | u in d'.folders && u != t
      ensures TrustedIn(d', u)
    {
      assert TrustedIn(d, u);
    }
  }

  lemma LandedManifest(d: Disk, t: Target, step: Step, token: Token)
    requires d.manifest.Some? && Accepts(d) && ChainsRecorded(d) && step.snapshot
    requires var m := d.manifest.value;
             && MayFollow(t, ChainOf(m, t), Owned(step.body, step.owner, token))
             && (step.decided.Some? ==> ValidLedger(t, LedgerOf(Decided(m, t, step.decided), t), d.recoveries))
    ensures ValidManifest(Published(d.manifest.value, t, step, token), d.recoveries)
  {
    hide MayFollow;
    hide Trusted;
    hide Consistent;
    hide ValidLedger;
    var m := d.manifest.value;
    var body := Owned(step.body, step.owner, token);
    AcceptedParts(d);
    assert Recorded(t, ChainOf(m, t)) by {
      assert t !in m.chains ==> Recorded(t, []);
    }
    RecordedGrows(t, ChainOf(m, t), body);
    var m' := Published(m, t, step, token);
    forall u | u in m'.chains
      ensures ValidChain(u, m'.chains[u])
    {
    }
    forall u | u in m'.ledger
      ensures ValidLedger(u, m'.ledger[u], d.recoveries)
    {
    }
  }

  // ------------------------------------------------- ledger and decisions

  /** A ledger is only ever opened for a target that has committed snapshots. */
  ghost predicate LedgersBacked(d: Disk) {
    d.manifest.Some? ==> forall t :: LedgerOf(d.manifest.value, t) != [] ==> ChainOf(d.manifest.value, t) != []
  }

  predicate NoFailDecision(ledger: seq<LedgerEntry>) {
    forall i :: 0 <= i < |ledger| ==> !ledger[i].decision.FailForGood?
  }

  lemma AgreesForward(b: Body, n: Body, ledger: seq<LedgerEntry>)
    requires LedgerAgrees(b, ledger) && NoFailDecision(ledger) && n.attempt >= b.attempt
    ensures LedgerAgrees(n, ledger)
  {
  }

  lemma AcceptedLedger(d: Disk, t: Target)
    requires d.manifest.Some? && Accepts(d) && StateAt(d, t).Some?
    ensures var b := StateAt(d, t).value.snapshot.body;
            var ledger := LedgerOf(d.manifest.value, t);
            && LedgerAgrees(b, ledger) && ValidLedger(t, ledger, d.recoveries)
            && CandidateBound(d.folders[t], b)
            && (!b.status.Failed? ==> NoFailDecision(ledger))
            && (b.status.Failed? && !AlreadyDecided(b, ledger) ==> NoFailDecision(ledger))
  {
    hide ReceiptsAnchored;
    hide CandidateBound;
    hide RecoveryBound;
    hide Consistent;
    assert TrustedIn(d, t);
  }

  lemma PrepareIsBound(d: Disk, op: Operation, note: string)
    requires d.manifest.Some? && Accepts(d) && ChainsRecorded(d) && LedgersBacked(d) && op.Prepare?
    ensures var v := Decide(op, note, d);
            v.Advance? ==> BoundByLedger(d.manifest.value, op.target, v.step, d.recoveries)
  {
    hide Accepts;
    var t := op.target;
    var m := d.manifest.value;
    var v := Decide(op, note, d);
    if StateAt(d, t).Some? {
      AcceptedState(d, t);
      AcceptedLedger(d, t);
      if v.Advance? {
        AgreesForward(StateAt(d, t).value.snapshot.body, v.step.body, LedgerOf(m, t));
      }
    } else {
      AcceptedAbsence(d, t);
    }
  }

  /** The ledger entry and the mark of a recovery step fit together. */
  lemma RecoveryIsBound(b: Body, ledger: seq<LedgerEntry>, recoveries: map<string, RecoveryReceipt>,
                        decision: Decision, receipt: RecoveryReceipt, note: string)
    requires LedgerAgrees(b, ledger) && NoFailDecision(ledger) && !decision.FailForGood?
    requires UsableTime(receipt.time)
    requires var file := FreeName(recoveries.Keys, receipt.time.value);
             ValidLedger(b.target, ledger + [LedgerEntry(b.target, b.attempt, b.attempt + 1, decision, file, receipt)],
                         recoveries[file := receipt])
    ensures var file := FreeName(recoveries.Keys, receipt.time.value);
            var ledger' := ledger + [LedgerEntry(b.target, b.attempt, b.attempt + 1, decision, file, receipt)];
            var body := Rescheduled(b, Some(RecoveryMark(decision, file, receipt)), note);
            RecoveryBound(body, ledger', recoveries[file := receipt]) && LedgerAgrees(body, ledger')
  {
    var file := FreeName(recoveries.Keys, receipt.time.value);
    var ledger' := ledger + [LedgerEntry(b.target, b.attempt, b.attempt + 1, decision, file, receipt)];
    var e := ledger'[|ledger|];
    assert ValidLedgerEntry(b.target, e, recoveries[file := receipt]);
    assert e.file == file && e.receipt == receipt && e.decision == decision;
  }

  /** Early files of an update, then what its snapshot must be bound by. */
  predicate WellPrepared(d: Disk, t: Target, step: Step)
    requires d.manifest.Some?
  {
    && (step.before != [] ==> Harmless(d, step.before[0]))
    && (step.snapshot && step.blocked.None? ==>
          BoundByLedger(d.manifest.value, t, step, ApplyAll(d, step.before).recoveries))
  }

  lemma PlainUpdateIsBound(op: Operation, note: string, d: Disk)
    requires d.manifest.Some? && Accepts(d) && ChainsRecorded(d) && OnExistingState(op) && StateAt(d, op.target).Some?
    requires !op.ScheduleRecovery? && !op.RecordRecovery?
    ensures var v := Decide(op, note, d);
            v.Advance? ==> WellPrepared(d, op.target, v.step)
  {
    hide Accepts;
    hide ValidLedger;
    var t := op.target;
    var b := StateAt(d, t).value.snapshot.body;
    AcceptedState(d, t);
    AcceptedLedger(d, t);
    var v := Decide(op, note, d);
    if v.Advance? {
      var step := v.step;
      assert step.before == [] || step.before == [PutCandidate(t, b.attempt, op.candidate)];
      assert step.before != [] ==> ApplyAll(d, step.before) == Apply(d, step.before[0]);
      if step.blocked.None? {
        AgreesForward(b, step.body, LedgerOf(d.manifest.value, t));
      }
    }
  }

  lemma ScheduleIsBound(d: Disk, t: Target, from: int, to: int, payload: Option<Decision>,
                        receipt: Option<RecoveryReceipt>, note: string)
    requires d.manifest.Some? && Accepts(d) && ChainsRecorded(d) && StateAt(d, t).Some?
    ensures var v := DecideSchedule(d.folders[t], d.manifest.value, d.recoveries, from, to, payload, receipt, note);
            v.Advance? ==> WellPrepared(d, t, v.step)
  {
    hide Accepts;
    hide ValidLedger;
    hide RecoveryBound;
    hide LedgerAgrees;
    var b := StateAt(d, t).value.snapshot.body;
    var ledger := LedgerOf(d.manifest.value, t);
    AcceptedState(d, t);
    AcceptedLedger(d, t);
    var v := DecideSchedule(d.folders[t], d.manifest.value, d.recoveries, from, to, payload, receipt, note);
    if v.Advance? && v.step.blocked.None? {
      RescheduledIsBound(b, ledger, d.recoveries, note);
      if v.step.decided.Some? {
        RecoveryIsBound(b, ledger, d.recoveries, v.step.decided.value.decision, receipt.value, note);
      }
    }
    WithReceiptEarly(d, t, v);
  }

  lemma RescheduledIsBound(b: Body, ledger: seq<LedgerEntry>, recoveries: map<string, RecoveryReceipt>, note: string)
    requires LedgerAgrees(b, ledger) && NoFailDecision(ledger) && b.recovery.None?
    ensures RecoveryBound(Rescheduled(b, None, note), ledger, recoveries)
    ensures LedgerAgrees(Rescheduled(b, None, note), ledger)
  {
  }

  lemma WithReceiptEarly(d: Disk, t: Target, v: Verdict)
    requires v.Advance? && v.step.before != [] ==>
               |v.step.before| == 1 && v.step.before[0].PutRecovery? && v.step.before[0].file !in d.recoveries
    ensures v.Advance? && v.step.before != [] ==>
              Harmless(d, v.step.before[0])
              && ApplyAll(d, v.step.before).recoveries
                 == d.recoveries[v.step.before[0].file := v.step.before[0].receipt]
    ensures v.Advance? && v.step.before == [] ==> ApplyAll(d, v.step.before) == d
  {
    if v.Advance? && v.step.before != [] {
      assert ApplyAll(d, v.step.before) == Apply(d, v.step.before[0]);
    }
  }

  lemma RecordIsBound(d: Disk, t: Target, from: int, decision: Decision, payload: Option<Decision>,
                      receipt: RecoveryReceipt, note: string)
    requires d.manifest.Some? && Accepts(d) && ChainsRecorded(d) && StateAt(d, t).Some?
    ensures var v := DecideRecovery(d.folders[t], d.manifest.value, d.recoveries, from, decision, payload, receipt,
                                    note);
            v.Advance? ==> WellPrepared(d, t, v.step)
  {
    hide Accepts;
    hide ValidLedger;
    hide RecoveryBound;
    hide LedgerAgrees;
    var b := StateAt(d, t).value.snapshot.body;
    var ledger := LedgerOf(d.manifest.value, t);
    AcceptedState(d, t);
    AcceptedLedger(d, t);
    var v := DecideRecovery(d.folders[t], d.manifest.value, d.recoveries, from, decision, payload, receipt, note);
    if v.Advance? && v.step.blocked.None? && v.step.snapshot {
      RecoveryIsBound(b, ledger, d.recoveries, decision, receipt, note);
    }
    WithReceiptEarly(d, t, v);
  }

  lemma UpdateIsBound(op: Operation, note: string, d: Disk)
    requires d.manifest.Some? && Accepts(d) && ChainsRecorded(d) && OnExistingState(op) && StateAt(d, op.target).Some?
    ensures var v := Decide(op, note, d);
            v.Advance? ==> WellPrepared(d, op.target, v.step)
  {
    hide Accepts;
    hide WellPrepared;
    hide DecideRecovery;
    hide DecideSchedule;
    match op
    case ScheduleRecovery(t, from, to, payload, receipt) => ScheduleIsBound(d, t, from, to, payload, receipt, note);
    case RecordRecovery(t, from, decision, payload, receipt) =>
      RecordIsBound(d, t, from, decision, payload, receipt, note);
    case _ => PlainUpdateIsBound(op, note, d);
  }

  // --------------------------------------------------------- main results

  lemma ExecutedStepIsSound(v: View, t: Target, expected: Option<Token>, step: Step)
    requires v.disk.manifest.Some? && Accepts(v.disk) && ChainsRecorded(v.disk)
    requires LawfulStep(ChainOf(v.disk.manifest.value, t), t, step) && WellPrepared(v.disk, t, step)
    requires step.snapshot && step.body.target == t && Execute(v, t, expected, step).1.Finished?
    ensures var d' := Execute(v, t, expected, step).0.disk;
            var body := Owned(step.body, step.owner, TokenFor(v, t, expected, step));
            var rec := Seal(body, ChainOf(v.disk.manifest.value, t));
            && (Sound(d') <==> CandidateBound(Committed(FolderOf(ApplyAll(v.disk, step.before), t), rec), body))
            && States(d') == States(v.disk)[t := rec]
            && d'.manifest.Some? && d'.manifest.value.status == v.disk.manifest.value.status
            && d'.manifest.value.pending == v.disk.manifest.value.pending
            && d'.manifest.value.ambiguous == v.disk.manifest.value.ambiguous
  {
    hide Execute;
    hide Accepts;
    hide Sound;
    hide CandidateBound;
    hide TokenFor;
    FinishedIsUnblocked(v, t, expected, step);
    ExecuteLanded(v, t, expected, step);
    var d1 := ApplyAll(v.disk, step.before);
    if step.before == [] {
      assert d1 == v.disk;
    } else {
      assert d1 == Apply(v.disk, step.before[0]);
      EarlyFileKeepsAccepted(v.disk, step.before[0]);
    }
    LandedStep(d1, t, step, TokenFor(v, t, expected, step));
  }

  /** What the caller must get right for the committed snapshot to be readable again. */
  predicate Fits(op: Operation, b: Body) {
    match op
    case SaveCandidate(_, c) => c.prompts == b.identity.prompts
    case MarkCompleted(_, artifact, _) => b.candidate == Some(Candidate(artifact, b.identity.prompts))
    case _ => true
  }

  /** Only saving a candidate and completing commit a snapshot that names one. */
  lemma NamesCandidate(op: Operation, note: string, f: Folder, m: Manifest, recoveries: map<string, RecoveryReceipt>)
    requires OnExistingState(op) && f.state.Some? && !op.SaveCandidate? && !op.MarkCompleted?
    ensures var v := DecideUpdate(op, note, f, m, recoveries);
            v.Advance? && v.step.snapshot && v.step.blocked.None? ==>
              !v.step.body.status.SuccessCandidate? && !v.step.body.status.Completed?
  {
    hide ValidLedger;
    hide AlreadyDecided;
  }

  lemma CandidateFits(d: Disk, op: Operation, note: string, token: Token)
    requires d.manifest.Some? && Accepts(d) && ChainsRecorded(d) && OnExistingState(op) && StateAt(d, op.target).Some?
    requires Decide(op, note, d).Advance? && Decide(op, note, d).step.snapshot && Decide(op, note, d).step.blocked.None?
    ensures var t := op.target;
            var step := Decide(op, note, d).step;
            var body := Owned(step.body, step.owner, token);
            CandidateBound(Committed(FolderOf(ApplyAll(d, step.before), t), Seal(body, ChainOf(d.manifest.value, t))),
                           body)
            <==> Fits(op, StateAt(d, t).value.snapshot.body)
  {
    hide Accepts;
    hide ValidLedger;
    hide LedgerAgrees;
    hide DecideSchedule;
    hide DecideRecovery;
    hide DecideFailure;
    var t := op.target;
    var b := StateAt(d, t).value.snapshot.body;
    var step := Decide(op, note, d).step;
    AcceptedState(d, t);
    AcceptedLedger(d, t);
    DecisionIsLawful(op, note, d);
    EarlyCandidates(d, t, step.before);
    if op.SaveCandidate? || op.MarkCompleted? {
      assert step.before == [] || step.before == [PutCandidate(t, b.attempt, op.candidate)];
    } else {
      NamesCandidate(op, note, d.folders[t], d.manifest.value, d.recoveries);
      assert MayFollow(t, ChainOf(d.manifest.value, t), Owned(step.body, step.owner, token));
    }
  }

  lemma EarlyCandidates(d: Disk, t: Target, before: seq<Write>)
    requires EarlyFiles(t, before) && t in d.folders
    ensures FolderOf(ApplyAll(d, before), t).candidates ==
            if before != [] && before[0].PutCandidate?
            then d.folders[t].candidates[before[0].attempt := before[0].candidate]
            else d.folders[t].candidates
  {
    if before != [] {
      assert ApplyAll(d, before) == Apply(d, before[0]);
    }
  }

  lemma EarlyWrites(d: Disk, t: Target, before: seq<Write>)
    requires EarlyFiles(t, before)
    ensures ApplyAll(d, before) == if before == [] then d else Apply(d, before[0])
  {
    if before != [] {
      assert before[1..] == [];
    }
  }

  /** A step that commits no snapshot, or stops before its final writes, leaves an accepted run accepted. */
  lemma UnfinishedStepIsAccepted(v: View, t: Target, expected: Option<Token>, step: Step)
    requires v.disk.manifest.Some? && Accepts(v.disk) && EarlyFiles(t, step.before)
    requires step.before != [] ==> Harmless(v.disk, step.before[0])
    ensures var (v', out) := Execute(v, t, expected, step);
            !out.Finished? && out != Stopped(Interrupted) ==>
              Accepts(v'.disk) && States(v'.disk) == States(v.disk)
  {
    hide Accepts;
    hide States;
    hide Settle;
    hide FinalWrites;
    var d1 := ApplyAll(v.disk, step.before);
    EarlyWrites(v.disk, t, step.before);
    if step.before != [] {
      EarlyFileKeepsAccepted(v.disk, step.before[0]);
    }
  }

  /** Appending a decision to fail for good keeps the run accepted: the state already says failed. */
  lemma FailDecisionIsAccepted(d: Disk, t: Target, e: LedgerEntry)
    requires d.manifest.Some? && Accepts(d) && t in d.folders && StateAt(d, t).Some?
    requires var b := StateAt(d, t).value.snapshot.body;
             b.status.Failed? && e.decision.FailForGood? && e.from == b.attempt
    requires ValidLedger(t, LedgerOf(Decided(d.manifest.value, t, Some(e)), t), d.recoveries)
    ensures Accepts(d.(manifest := Some(Decided(d.manifest.value, t, Some(e)))))
  {
    hide Trusted;
    hide ValidChain;
    hide ValidLedger;
    var m := d.manifest.value;
    var m' := Decided(m, t, Some(e));
    var d' := d.(manifest := Some(m'));
    AcceptedParts(d);
    forall u | u in d'.folders
      ensures TrustedIn(d', u)
    {
      assert TrustedIn(d, u);
      if u == t {
        MoreDecisionsKeepTrust(t, d.folders[t], ChainOf(m, t), LedgerOf(m, t), d.recoveries, e);
      }
    }
    assert States(d') == States(d);
  }

  lemma MoreDecisionsKeepTrust(t: Target, f: Folder, chain: seq<Entry>, ledger: seq<LedgerEntry>,
                               recoveries: map<string, RecoveryReceipt>, e: LedgerEntry)
    requires Trusted(t, f, chain, ledger, recoveries)
    requires var b := f.state.value.snapshot.body;
             b.status.Failed? && e.decision.FailForGood? && e.from == b.attempt
    ensures Trusted(t, f, chain, ledger + [e], recoveries)
  {
    hide ReceiptsAnchored;
    hide CandidateBound;
    var ledger' := ledger + [e];
    var b := f.state.value.snapshot.body;
    if b.recovery.Some? {
      var i :| 0 <= i < |ledger| && ledger[i].file == b.recovery.value.file
        && ledger[i].receipt == b.recovery.value.receipt
                && ledger[i].decision == b.recovery.value.decision;
      assert ledger'[i] == ledger[i];
    }
  }

  // ---------------------------------------------- the published status

  /** An attempt the published status can rest on; a completed run needs all of them to be such. */
  predicate Backs(status: RunStatus, attempt: Status, resolved: bool) {
    match status
    case RunRunning => true
    case RunCompleted => attempt.Completed?
    case RunPendingRetry => attempt.RetryScheduled?
    case RunAmbiguous => attempt.Ambiguous? || (resolved && attempt in {RetryScheduled, Failed})
    case RunCheckpointPending => attempt.CheckpointPending?
    case RunFailed => attempt in {Failed, RetryScheduled, SuccessCandidate}
  }

  predicate BackedBy(status: RunStatus, rec: Record) {
    Backs(status, rec.snapshot.body.status, rec.snapshot.body.resolved)
  }

  predicate BackedElsewhere(status: RunStatus, states: map<Target, Record>, t: Target) {
    exists u :: u in states && u != t && BackedBy(status, states[u])
  }

  /** The status still has something to rest on once `t` stands at this attempt status. */
  predicate StaysBacked(status: RunStatus, states: map<Target, Record>, t: Target, attempt: Status, resolved: bool) {
    Backs(status, attempt, resolved) || (!status.RunCompleted? && BackedElsewhere(status, states, t))
  }

  lemma BackedSomewhere(status: RunStatus, states: map<Target, Record>, t: Target)
    requires t in states && !status.RunCompleted?
    ensures StaysBacked(status, states, t, states[t].snapshot.body.status, states[t].snapshot.body.resolved)
            <==> exists u :: u in states && BackedBy(status, states[u])
  {
  }

  /** The readers' comparison, for a run with attempts, asks for one state to rest on. */
  lemma ConsistentMeansBacked(m: Manifest, states: map<Target, Record>, t: Target)
    requires t in states && !m.status.RunCompleted?
    ensures Consistent(m, states)
            <==> exists u :: u in states && BackedBy(m.status, states[u])
  {
    var body := states[t].snapshot.body;
    assert m.status.RunRunning? ==> Backs(m.status, body.status, body.resolved);
  }

  /** What a new snapshot of one target does to that comparison. */
  lemma ConsistentAfter(m: Manifest, m': Manifest, states: map<Target, Record>, t: Target, rec: Record)
    requires Consistent(m, states)
    requires m'.status == m.status && m'.pending == m.pending && m'.ambiguous == m.ambiguous
    ensures var b := rec.snapshot.body;
            Consistent(m', states[t := rec]) <==> StaysBacked(m.status, states, t, b.status, b.resolved)
  {
    var after := states[t := rec];
    if !m.status.RunCompleted? {
      ConsistentMeansBacked(m', after, t);
      BackedSomewhere(m.status, after, t);
      SameElsewhere(m.status, states, t, rec);
    }
  }

  lemma SameElsewhere(status: RunStatus, states: map<Target, Record>, t: Target, rec: Record)
    ensures BackedElsewhere(status, states[t := rec], t) <==> BackedElsewhere(status, states, t)
  {
    var after := states[t := rec];
    assert forall u :: u != t ==> (u in after <==> u in states) && (u in states ==> after[u] == states[u]);
  }

  /** The attempt status an operation commits, read off its arguments and the state it finds. */
  function NextStatus(op: Operation, b: Option<Body>): Status {
    match op
    case Prepare(_, _, _) => if b.Some? && b.value.status.Running? && b.value.effect then Ambiguous else Running
    case MarkSideEffect(_) => Running
    case MarkCheckpoint(_) => CheckpointPending
    case SaveCandidate(_, _) => SuccessCandidate
    case MarkCompleted(_, _, _) => Completed
    case RecordFailure(_, policy, kind) =>
      if b.Some? && Retryable(b.value, policy, kind) then RetryScheduled else Failed
    case _ => RetryScheduled
  }

  function BodyIn(d: Disk, t: Target): Option<Body> {
    if StateAt(d, t).Some? then Some(StateAt(d, t).value.snapshot.body) else None
  }

  predicate WasResolved(b: Option<Body>) {
    b.Some? && b.value.resolved
  }

  lemma DecidedStatus(op: Operation, note: string, d: Disk)
    requires d.manifest.Some? && (OnExistingState(op) || op.Prepare?) && !op.ScheduleRecovery? && !op.RecordRecovery?
    requires Decide(op, note, d).Advance?
    ensures var n := Decide(op, note, d).step.body;
            var b := BodyIn(d, op.target);
            && n.status == NextStatus(op, b)
            && (n.status in {RetryScheduled, Failed} ==> n.resolved == WasResolved(b))
            && Decide(op, note, d).step.snapshot
  {
  }

  /**
    What the readers ask of a finished attempt operation: that it fits, and that the status keeps a state to rest on.
   */
  predicate KeepsAccepted(op: Operation, d: Disk)
    requires d.manifest.Some? && (OnExistingState(op) || op.Prepare?)
  {
    var b := BodyIn(d, op.target);
    && (op.Prepare? || b.None? || Fits(op, b.value))
    && StaysBacked(d.manifest.value.status, States(d), op.target, NextStatus(op, b), WasResolved(b))
  }

  /** The states the readers return moved by one record of `t` with the status of this body. */
  predicate MovesTo(d: Disk, d': Disk, t: Target, body: Body, rec: Record) {
    && rec.snapshot.body.status == body.status && rec.snapshot.body.resolved == body.resolved
    && States(d') == States(d)[t := rec]
  }

  lemma FinishedStepIsSound(v: View, op: Operation, note: string)
    requires v.disk.manifest.Some? && Accepts(v.disk) && ChainsRecorded(v.disk) && LedgersBacked(v.disk)
    requires (OnExistingState(op) || op.Prepare?) && !op.ScheduleRecovery? && !op.RecordRecovery?
    requires Decide(op, note, v.disk).Advance? && Decide(op, note, v.disk).step.snapshot
    requires Execute(v, op.target, OwnerOf(v.disk, op.target), Decide(op, note, v.disk).step).1.Finished?
    ensures var d' := Execute(v, op.target, OwnerOf(v.disk, op.target), Decide(op, note, v.disk).step).0.disk;
            var step := Decide(op, note, v.disk).step;
            var b := BodyIn(v.disk, op.target);
            && (Sound(d') <==> op.Prepare? || b.None? || Fits(op, b.value))
            && d'.manifest.Some? && d'.manifest.value.status == v.disk.manifest.value.status
            && d'.manifest.value.pending == v.disk.manifest.value.pending
            && d'.manifest.value.ambiguous == v.disk.manifest.value.ambiguous
            && exists rec: Record :: MovesTo(v.disk, d', op.target, step.body, rec)
  {
    hide Accepts;
    hide Sound;
    hide Execute;
    hide DecideUpdate;
    hide CandidateBound;
    hide MayFollow;
    hide TokenFor;
    hide Fits;
    var t := op.target;
    var step := Decide(op, note, v.disk).step;
    var token := TokenFor(v, t, OwnerOf(v.disk, t), step);
    FinishedIsUnblocked(v, t, OwnerOf(v.disk, t), step);
    DecisionIsLawful(op, note, v.disk);
    BodyTarget(ChainOf(v.disk.manifest.value, t), t, step);
    if op.Prepare? {
      PrepareIsBound(v.disk, op, note);
      assert step.before == [];
      EarlyWrites(v.disk, t, step.before);
      ExecutedStepIsSound(v, t, OwnerOf(v.disk, t), step);
      PreparedIsUncandidated(v.disk, op, note, token);
    } else {
      UpdateIsBound(op, note, v.disk);
      ExecutedStepIsSound(v, t, OwnerOf(v.disk, t), step);
      CandidateFits(v.disk, op, note, token);
    }
    var rec := Seal(Owned(step.body, step.owner, token), ChainOf(v.disk.manifest.value, t));
    OwnerIsNoStatus(step.body, step.owner, token);
    assert MovesTo(v.disk, Execute(v, t, OwnerOf(v.disk, t), step).0.disk, t, step.body, rec);
  }

  lemma OwnerIsNoStatus(b: Body, rule: OwnerRule, token: Token)
    ensures Owned(b, rule, token).status == b.status && Owned(b, rule, token).resolved == b.resolved
  {
  }

  lemma FinishedStepIsAccepted(v: View, op: Operation, note: string)
    requires v.disk.manifest.Some? && Accepts(v.disk) && ChainsRecorded(v.disk) && LedgersBacked(v.disk)
    requires (OnExistingState(op) || op.Prepare?) && !op.ScheduleRecovery? && !op.RecordRecovery?
    requires Decide(op, note, v.disk).Advance? && Decide(op, note, v.disk).step.snapshot
    requires Execute(v, op.target, OwnerOf(v.disk, op.target), Decide(op, note, v.disk).step).1.Finished?
    ensures var d' := Execute(v, op.target, OwnerOf(v.disk, op.target), Decide(op, note, v.disk).step).0.disk;
            Accepts(d') <==> KeepsAccepted(op, v.disk)
  {
    hide Sound;
    hide Consistent;
    hide Execute;
    hide Decide;
    hide Fits;
    hide States;
    hide StaysBacked;
    hide ChainsRecorded;
    var t := op.target;
    var d' := Execute(v, t, OwnerOf(v.disk, t), Decide(op, note, v.disk).step).0.disk;
    FinishedStepIsSound(v, op, note);
    DecidedStatus(op, note, v.disk);
    var step := Decide(op, note, v.disk).step;
    var rec: Record :| MovesTo(v.disk, d', t, step.body, rec);
    ConsistentAfter(v.disk.manifest.value, d'.manifest.value, States(v.disk), t, rec);
    ResolvedMatters(v.disk.manifest.value.status, States(v.disk), t, step.body.status, step.body.resolved,
                    WasResolved(BodyIn(v.disk, t)));
  }

  /** Whether an attempt was resolved counts only for retries and failures. */
  lemma ResolvedMatters(status: RunStatus, states: map<Target, Record>, t: Target, attempt: Status, r: bool, r': bool)
    requires attempt in {RetryScheduled, Failed} ==> r == r'
    ensures StaysBacked(status, states, t, attempt, r) <==> StaysBacked(status, states, t, attempt, r')
  {
  }

  lemma BodyTarget(chain: seq<Entry>, t: Target, step: Step)
    requires LawfulStep(chain, t, step) && step.snapshot && step.blocked.None?
    ensures step.body.target == t
  {
    assert MayFollow(t, chain, Owned(step.body, step.owner, 0));
  }

  lemma PreparedIsUncandidated(d: Disk, op: Operation, note: string, token: Token)
    requires d.manifest.Some? && Accepts(d) && ChainsRecorded(d) && op.Prepare? && Decide(op, note, d).Advance?
    ensures var step := Decide(op, note, d).step;
            forall f :: CandidateBound(f, Owned(step.body, step.owner, token))
  {
    hide Accepts;
    if StateAt(d, op.target).Some? {
      AcceptedState(d, op.target);
    }
  }

  /**
    Whatever status is published, an attempt operation that was not interrupted leaves a run the readers accept exactly
    when it committed nothing, or what it committed fits and leaves the status a state to rest on.
   */
  lemma OperationsKeepTheRunAccepted(v: View, op: Operation, note: string)
    requires v.disk.manifest.Some? && Accepts(v.disk) && ChainsRecorded(v.disk) && LedgersBacked(v.disk)
    requires (OnExistingState(op) || op.Prepare?) && !op.ScheduleRecovery? && !op.RecordRecovery?
    ensures var (v', reply) := Perform(v, op, note);
            reply != Raised(Interrupted) ==>
              (Accepts(v'.disk) <==> v'.disk.manifest == v.disk.manifest || KeepsAccepted(op, v.disk))
  {
    hide Accepts;
    hide Execute;
    hide DecideUpdate;
    hide DecidePrepare;
    hide KeepsAccepted;
    var (v1, ok) := Load(v);
    LoadAccepted(v);
    var t := op.target;
    if Decide(op, note, v1.disk).Advance? {
      var step := Decide(op, note, v1.disk).step;
      var (v2, out) := Execute(v1, t, OwnerOf(v1.disk, t), step);
      DecisionIsLawful(op, note, v1.disk);
      DecidedStatus(op, note, v1.disk);
      if out.Finished? {
        FinishedStepIsAccepted(v1, op, note);
        ExecuteEffect(v1, t, OwnerOf(v1.disk, t), step);
        FinishedIsUnblocked(v1, t, OwnerOf(v1.disk, t), step);
        FinishedChangesManifest(v1, op, note);
      } else if out != Stopped(Interrupted) {
        DecisionIsPrepared(op, note, v1.disk);
        UnfinishedStepIsAccepted(v1, t, OwnerOf(v1.disk, t), step);
        UnfinishedKeepsManifest(v1, t, OwnerOf(v1.disk, t), step);
      }
    }
  }

  /** In a completed run nothing an attempt operation could commit is a completion. */
  lemma CompletedRunTakesNoCommit(v: View, op: Operation, note: string)
    requires v.disk.manifest.Some? && Accepts(v.disk) && ChainsRecorded(v.disk) && LedgersBacked(v.disk)
    requires v.disk.manifest.value.status.RunCompleted?
    requires (OnExistingState(op) || op.Prepare?) && !op.ScheduleRecovery? && !op.RecordRecovery?
    requires Perform(v, op, note).1 != Raised(Interrupted)
    ensures var d' := Perform(v, op, note).0.disk;
            d'.manifest != v.disk.manifest ==> op.Prepare? && StateAt(v.disk, op.target).None? && !Accepts(d')
  {
    hide Accepts;
    hide Execute;
    hide KeepsAccepted;
    OperationsKeepTheRunAccepted(v, op, note);
    LoadAccepted(v);
    if StateAt(v.disk, op.target).Some? {
      CompletedDecidesNothing(v.disk, op, note);
    } else if op.Prepare? {
      StartedIsNotCompleted(op, v.disk);
    }
  }

  lemma StartedIsNotCompleted(op: Operation, d: Disk)
    requires d.manifest.Some? && d.manifest.value.status.RunCompleted? && op.Prepare? && StateAt(d, op.target).None?
    ensures !KeepsAccepted(op, d)
  {
  }

  lemma CompletedDecidesNothing(d: Disk, op: Operation, note: string)
    requires (OnExistingState(op) || op.Prepare?) && !op.ScheduleRecovery? && !op.RecordRecovery?
    requires d.manifest.Some? && Accepts(d) && d.manifest.value.status.RunCompleted? && StateAt(d, op.target).Some?
    ensures !Decide(op, note, d).Advance?
  {
    hide Sound;
    assert States(d)[op.target].snapshot.body.status.Completed?;
  }

  lemma LoadAccepted(v: View)
    requires Accepts(v.disk)
    ensures var (v1, ok) := Load(v);
            ok && v1.disk == v.disk && v1.quota == v.quota && v1.locks == v.locks
  {
  }

  lemma DecisionIsPrepared(op: Operation, note: string, d: Disk)
    requires d.manifest.Some? && Accepts(d) && ChainsRecorded(d) && (OnExistingState(op) || op.Prepare?)
    ensures var v := Decide(op, note, d);
            v.Advance? ==>
              EarlyFiles(op.target, v.step.before) && (v.step.before != [] ==> Harmless(d, v.step.before[0]))
  {
    hide Accepts;
    hide DecideUpdate;
    hide MayFollow;
    DecisionIsLawful(op, note, d);
    if OnExistingState(op) && StateAt(d, op.target).Some? {
      UpdateIsBound(op, note, d);
    }
  }

  lemma FinishedChangesManifest(v: View, op: Operation, note: string)
    requires v.disk.manifest.Some? && (OnExistingState(op) || op.Prepare?)
    requires Decide(op, note, v.disk).Advance?
    requires var d' := Execute(v, op.target, OwnerOf(v.disk, op.target), Decide(op, note, v.disk).step).0.disk;
             Appended(v.disk, d', op.target, BodyFor(v, op, note))
    ensures Execute(v, op.target, OwnerOf(v.disk, op.target), Decide(op, note, v.disk).step).0.disk.manifest
            != v.disk.manifest
  {
    hide Execute;
    hide Decide;
    hide BodyFor;
    AppendedLast(v.disk, Execute(v, op.target, OwnerOf(v.disk, op.target), Decide(op, note, v.disk).step).0.disk,
                 op.target, BodyFor(v, op, note));
  }

  lemma UnfinishedKeepsManifest(v: View, t: Target, expected: Option<Token>, step: Step)
    requires v.disk.manifest.Some? && EarlyFiles(t, step.before)
    ensures !Execute(v, t, expected, step).1.Finished?
            ==> Execute(v, t, expected, step).0.disk.manifest == v.disk.manifest
  {
    hide Finish;
    var (locks, grant) := Settle(v.locks, t, expected, step.mode);
    if !grant.Denied? && !(grant.Kept? && step.mode.Claim? && step.mode.adopt) {
      FinishPublishes(v.(locks := locks), t, step, grant.token);
    }
  }

  // ------------------------------------------------------ recovery, resolve

  lemma RecoveryAdvances(op: Operation, note: string, d: Disk)
    requires d.manifest.Some? && (op.ScheduleRecovery? || op.RecordRecovery?)
    ensures var v := Decide(op, note, d);
            v.Advance? ==>
              && StateAt(d, op.target).Some? && StateAt(d, op.target).value.snapshot.body.status.Failed?
              && d.manifest.value.status.RunFailed?
              && (v.step.snapshot ==> v.step.body.status.RetryScheduled?)
              && (!v.step.snapshot && v.step.blocked.None? ==>
                    v.step.decided.Some? && v.step.decided.value.decision.FailForGood?
                    && v.step.decided.value.from == StateAt(d, op.target).value.snapshot.body.attempt
                    && v.step.before == [PutRecovery(v.step.decided.value.file, v.step.decided.value.receipt)]
                    && v.step.decided.value.file !in d.recoveries
                    && ValidLedger(StateAt(d, op.target).value.snapshot.body.target,
                                   LedgerOf(d.manifest.value, StateAt(d, op.target).value.snapshot.body.target)
                                     + [v.step.decided.value],
                                   d.recoveries[v.step.decided.value.file := v.step.decided.value.receipt]))
  {
    hide ValidLedger;
    hide AlreadyDecided;
  }

  lemma RecoveredIsAccepted(v: View, op: Operation, note: string)
    requires v.disk.manifest.Some? && Accepts(v.disk) && ChainsRecorded(v.disk)
    requires (op.ScheduleRecovery? || op.RecordRecovery?) && Decide(op, note, v.disk).Advance?
    requires Execute(v, op.target, OwnerOf(v.disk, op.target), Decide(op, note, v.disk).step).1.Finished?
    requires Decide(op, note, v.disk).step.snapshot
    ensures Accepts(Execute(v, op.target, OwnerOf(v.disk, op.target), Decide(op, note, v.disk).step).0.disk)
  {
    hide Sound;
    hide Execute;
    hide DecideUpdate;
    hide CandidateBound;
    hide MayFollow;
    hide TokenFor;
    var t := op.target;
    var step := Decide(op, note, v.disk).step;
    var token := TokenFor(v, t, OwnerOf(v.disk, t), step);
    RecoveryAdvances(op, note, v.disk);
    FinishedIsUnblocked(v, t, OwnerOf(v.disk, t), step);
    DecisionIsLawful(op, note, v.disk);
    BodyTarget(ChainOf(v.disk.manifest.value, t), t, step);
    UpdateIsBound(op, note, v.disk);
    ExecutedStepIsSound(v, t, OwnerOf(v.disk, t), step);
    CandidateFits(v.disk, op, note, token);
    var d' := Execute(v, t, OwnerOf(v.disk, t), step).0.disk;
    assert t in States(d') && States(d')[t].snapshot.body.status.RetryScheduled?;
    assert AnyIn(States(d'), {Failed, RetryScheduled, SuccessCandidate});
  }

  lemma FailedForGoodIsAccepted(v: View, op: Operation, note: string)
    requires v.disk.manifest.Some? && Accepts(v.disk) && ChainsRecorded(v.disk)
    requires (op.ScheduleRecovery? || op.RecordRecovery?) && Decide(op, note, v.disk).Advance?
    requires Execute(v, op.target, OwnerOf(v.disk, op.target), Decide(op, note, v.disk).step).1.Finished?
    requires !Decide(op, note, v.disk).step.snapshot
    ensures var d' := Execute(v, op.target, OwnerOf(v.disk, op.target), Decide(op, note, v.disk).step).0.disk;
            Accepts(d') && States(d') == States(v.disk)
  {
    hide Accepts;
    hide DecideUpdate;
    hide Settle;
    hide ValidLedger;
    var t := op.target;
    var step := Decide(op, note, v.disk).step;
    RecoveryAdvances(op, note, v.disk);
    FinishedIsUnblocked(v, t, OwnerOf(v.disk, t), step);
    AcceptedState(v.disk, t);
    var e := step.decided.value;
    var d1 := Apply(v.disk, step.before[0]);
    EarlyWrites(v.disk, t, step.before);
    EarlyFileKeepsAccepted(v.disk, step.before[0]);
    FailDecisionIsAccepted(d1, t, e);
    LedgerOnlyLanded(v, t, step);
    var d' := Execute(v, t, OwnerOf(v.disk, t), step).0.disk;
    assert d' == d1.(manifest := Some(Decided(v.disk.manifest.value, t, Some(e))));
    assert States(d') == States(d1);
  }

  lemma LedgerOnlyLanded(v: View, t: Target, step: Step)
    requires v.disk.manifest.Some? && EarlyFiles(t, step.before) && !step.snapshot && step.decided.Some?
    ensures var (v', out) := Execute(v, t, OwnerOf(v.disk, t), step);
            out.Finished? ==>
              var m' := Decided(v.disk.manifest.value, t, step.decided);
              v'.disk == ApplyAll(v.disk, step.before).(manifest := Some(m'))
  {
    hide Settle;
    var m' := Decided(v.disk.manifest.value, t, step.decided);
    var d1 := ApplyAll(v.disk, step.before);
    assert ApplyAll(d1, [PutManifest(m')]) == Apply(d1, PutManifest(m'));
  }

  /** A recovery decision that was not interrupted leaves a run the readers accept. */
  lemma RecoveryKeepsTheRunAccepted(v: View, op: Operation, note: string)
    requires v.disk.manifest.Some? && Accepts(v.disk) && ChainsRecorded(v.disk)
    requires op.ScheduleRecovery? || op.RecordRecovery?
    ensures var (v', reply) := Perform(v, op, note);
            reply != Raised(Interrupted) ==> Accepts(v'.disk)
  {
    hide Accepts;
    hide Execute;
    hide DecideUpdate;
    var (v1, ok) := Load(v);
    LoadAccepted(v);
    var t := op.target;
    if Decide(op, note, v1.disk).Advance? {
      var step := Decide(op, note, v1.disk).step;
      var out := Execute(v1, t, OwnerOf(v1.disk, t), step).1;
      if out.Finished? {
        if step.snapshot {
          RecoveredIsAccepted(v1, op, note);
        } else {
          FailedForGoodIsAccepted(v1, op, note);
        }
      } else if out != Stopped(Interrupted) {
        DecisionIsPrepared(op, note, v1.disk);
        UnfinishedStepIsAccepted(v1, t, OwnerOf(v1.disk, t), step);
      }
    }
  }

  /** The step of a resolution that finished leaves sound files, one attempt further. */
  lemma ResolvingStepIsSound(v: View, t: Target, expected: Option<Token>, step: Step)
    requires v.disk.manifest.Some? && Accepts(v.disk) && ChainsRecorded(v.disk) && ResolvesAt(v.disk, t, step)
    requires Execute(v, t, expected, step).1.Finished?
    ensures var d' := Execute(v, t, expected, step).0.disk;
            && Sound(d') && d'.manifest.Some? && d'.manifest.value.status == v.disk.manifest.value.status
            && d'.manifest.value.pending == v.disk.manifest.value.pending
            && d'.manifest.value.ambiguous == v.disk.manifest.value.ambiguous
            && exists rec: Record :: MovesTo(v.disk, d', t, step.body, rec)
  {
    hide Execute;
    hide CandidateBound;
    hide TokenFor;
    hide Sound;
    hide ValidLedger;
    hide ReceiptsAnchored;
    hide ChainsRecorded;
    hide Consistent;
    var m := v.disk.manifest.value;
    BodyTarget(ChainOf(m, t), t, step);
    AcceptedLedger(v.disk, t);
    EarlyWrites(v.disk, t, step.before);
    AgreesForward(StateAt(v.disk, t).value.snapshot.body, step.body, LedgerOf(m, t));
    ExecutedStepIsSound(v, t, expected, step);
    var token := TokenFor(v, t, expected, step);
    var body := Owned(step.body, step.owner, token);
    assert MayFollow(t, ChainOf(m, t), body);
    Uncandidated(Committed(FolderOf(ApplyAll(v.disk, step.before), t), Seal(body, ChainOf(m, t))), body);
    OwnerIsNoStatus(step.body, step.owner, token);
    assert MovesTo(v.disk, Execute(v, t, expected, step).0.disk, t, step.body, Seal(body, ChainOf(m, t)));
  }

  /** What both commits of `resolve` have in common. */
  ghost predicate ResolvesAt(d: Disk, t: Target, step: Step)
    requires d.manifest.Some?
  {
    && LawfulStep(ChainOf(d.manifest.value, t), t, step) && step.snapshot && step.blocked.None? && step.decided.None?
    && StateAt(d, t).Some? && step.body.attempt == StateAt(d, t).value.snapshot.body.attempt
    && StateAt(d, t).value.snapshot.body.status in {Running, Ambiguous} && step.body.recovery.None?
    && (step.body.status.Ambiguous? || (step.body.resolved && step.body.status in {RetryScheduled, Failed}))
    && (step.before != [] ==> step.before[0].PutResolution? && step.before[0].target == t)
  }

  /**
    No status of a run with attempts rests on a running one, and one that rests on an ambiguous
    one can rest on it resolved.
   */
  lemma ResolvingStaysBacked(m: Manifest, states: map<Target, Record>, t: Target, attempt: Status, resolved: bool)
    requires t in states && Consistent(m, states) && states[t].snapshot.body.status in {Running, Ambiguous}
    requires attempt.Ambiguous? || (resolved && attempt in {RetryScheduled, Failed})
    ensures StaysBacked(m.status, states, t, attempt, resolved)
  {
    if !m.status.RunCompleted? {
      ConsistentMeansBacked(m, states, t);
      BackedSomewhere(m.status, states, t);
    }
  }

  lemma ResolvingStepIsAccepted(v: View, t: Target, expected: Option<Token>, step: Step)
    requires v.disk.manifest.Some? && Accepts(v.disk) && ChainsRecorded(v.disk) && ResolvesAt(v.disk, t, step)
    ensures var (v', out) := Execute(v, t, expected, step);
            v'.disk.manifest.Some? && (out != Stopped(Interrupted) ==> Accepts(v'.disk))
  {
    hide Execute;
    hide Sound;
    hide Consistent;
    hide States;
    hide StaysBacked;
    hide ChainsRecorded;
    var (v', out) := Execute(v, t, expected, step);
    ExecuteEffect(v, t, expected, step);
    if out.Finished? {
      ResolvingStepIsSound(v, t, expected, step);
      var rec: Record :| MovesTo(v.disk, v'.disk, t, step.body, rec);
      StateIsListed(v.disk, t);
      ConsistentAfter(v.disk.manifest.value, v'.disk.manifest.value, States(v.disk), t, rec);
      ResolvingStaysBacked(v.disk.manifest.value, States(v.disk), t, step.body.status, step.body.resolved);
    } else if out != Stopped(Interrupted) {
      UnfinishedStepIsAccepted(v, t, expected, step);
    }
  }

  lemma StateIsListed(d: Disk, t: Target)
    requires StateAt(d, t).Some?
    ensures t in States(d) && States(d)[t] == StateAt(d, t).value
  {
  }

  lemma Uncandidated(f: Folder, b: Body)
    requires Shape(b) && !b.status.SuccessCandidate? && !b.status.Completed?
    ensures CandidateBound(f, b)
  {
  }

  lemma SettlingIsAccepted(v: View, t: Target, retry: bool, reason: string, note: string)
    requires v.disk.manifest.Some? && Accepts(v.disk) && ChainsRecorded(v.disk)
    requires StateAt(v.disk, t).Some? && StateAt(v.disk, t).value.snapshot.body.status.Ambiguous?
    requires Heads(ChainOf(v.disk.manifest.value, t), t, StateAt(v.disk, t).value.snapshot.body)
    ensures var b := StateAt(v.disk, t).value.snapshot.body;
            var (v', out) := Execute(v, t, b.owner, Settled(b, retry, reason, note));
            out != Stopped(Interrupted) ==> Accepts(v'.disk)
  {
    hide Accepts;
    hide Execute;
    hide LawfulStep;
    var b := StateAt(v.disk, t).value.snapshot.body;
    SettlingIsLawful(b, ChainOf(v.disk.manifest.value, t), t, retry, reason, note);
    ResolvingStepIsAccepted(v, t, b.owner, Settled(b, retry, reason, note));
  }

  lemma OwningIsAccepted(v: View, t: Target, attempt: int, note: string)
    requires v.disk.manifest.Some? && Accepts(v.disk) && ChainsRecorded(v.disk)
    requires StateAt(v.disk, t).Some? && OwnAmbiguous(StateAt(v.disk, t).value.snapshot.body, attempt, note).Some?
    ensures var first := OwnAmbiguous(StateAt(v.disk, t).value.snapshot.body, attempt, note).value;
            var (v', out) := Execute(v, t, OwnerOf(v.disk, t), first);
            && v'.disk.manifest.Some?
            && (out != Stopped(Interrupted) ==> Accepts(v'.disk))
  {
    hide Accepts;
    hide Execute;
    hide LawfulStep;
    var b := StateAt(v.disk, t).value.snapshot.body;
    AcceptedState(v.disk, t);
    OwningIsLawful(b, ChainOf(v.disk.manifest.value, t), t, attempt, note);
    ResolvingStepIsAccepted(v, t, OwnerOf(v.disk, t), OwnAmbiguous(b, attempt, note).value);
  }

  /**
    Whatever status is published, resolving an ambiguous attempt, if not interrupted, leaves a run the readers accept.
   */
  lemma ResolveKeepsTheRunAccepted(v: View, t: Target, attempt: int, retry: bool, reason: string, note: string)
    requires v.disk.manifest.Some? && Accepts(v.disk) && ChainsRecorded(v.disk)
    ensures var (v', reply) := PerformResolve(v, t, attempt, retry, reason, note);
            reply != Raised(Interrupted) ==> Accepts(v'.disk)
  {
    hide Accepts;
    hide Execute;
    hide OwnAmbiguous;
    hide Settled;
    hide ChainsRecorded;
    hide GrowsBy;
    hide Heads;
    var (v1, ok) := Load(v);
    LoadAccepted(v);
    if StateAt(v1.disk, t).Some? {
      var first := OwnAmbiguous(StateAt(v1.disk, t).value.snapshot.body, attempt, note);
      if first.Some? {
        OwningIsAccepted(v1, t, attempt, note);
        OwningEffect(v1, t, attempt, note, {Status.Ambiguous});
        var (v2, out) := Execute(v1, t, OwnerOf(v1.disk, t), first.value);
        if !out.Stopped? {
          SettlingIsAccepted(v2, t, retry, reason, note);
        }
      }
    }
  }
}
