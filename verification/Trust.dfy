/**
  Which files the durable readers accept, said record by record: against the snapshots the receipt chains commit to,
  the recovery receipts and the ledger.
 */
module Trust {
  import opened Wrappers
  import opened Records
  import opened Durable
  import opened Protocol
  import opened Commit
  import opened Refinement
  import opened StoreRuns
  import opened Publication
  import opened Safety

  /** What the file for link `i` of a chain must hold. */
  function Recording(chain: seq<Entry>, i: nat): Record
    requires i < |chain|
  {
    Record(chain[i].digest.snapshot, chain[i].digest)
  }

  /** Link `i` is the last one of its attempt. */
  predicate LastOfAttempt(chain: seq<Entry>, i: nat)
    requires i < |chain|
  {
    forall j :: i < j < |chain| ==> chain[j].attempt != chain[i].attempt
  }

  /** The state file is the last snapshot; receipts are the last ones of their attempts, all but a fresh one there. */
  predicate FilesAreRecorded(f: Folder, chain: seq<Entry>)
    requires chain != []
  {
    var last := |chain| - 1;
    var b := chain[last].digest.snapshot.body;
    && f.state == Some(Recording(chain, last))
    && (forall k :: k in f.receipts ==>
          exists i :: 0 <= i < |chain| && chain[i].attempt == k && LastOfAttempt(chain, i)
                      && f.receipts[k] == Recording(chain, i))
    && (forall i :: 0 <= i < |chain| ==>
          chain[i].attempt in f.receipts || (chain[i].attempt == b.attempt && b.status == Running && !b.effect))
  }

  /** What the last snapshot says of candidate, artifact, recovery and decisions is borne out by the other files. */
  predicate ClaimsAreBacked(b: Body, f: Folder, ledger: seq<LedgerEntry>, recoveries: map<string, RecoveryReceipt>) {
    && (b.candidate.Some? ==>
          && b.attempt in f.candidates && f.candidates[b.attempt] == b.candidate.value
          && b.candidate.value.prompts == b.identity.prompts
          && (b.status == Completed && b.artifact.Some? ==> b.artifact.value == b.candidate.value.artifact))
    && (b.recovery.Some? ==>
          var r := b.recovery.value;
          && r.file in recoveries && recoveries[r.file] == r.receipt && r.receipt.decision == Some(r.decision)
          && exists i :: 0 <= i < |ledger| && ledger[i].file == r.file && ledger[i].receipt == r.receipt
                         && ledger[i].decision == r.decision)
    && (forall i :: 0 <= i < |ledger| && ledger[i].decision == FailForGood ==>
          b.status == Failed && b.attempt == ledger[i].from)
    && (forall i :: 0 <= i < |ledger| && ledger[i].decision != FailForGood ==> b.attempt >= ledger[i].to)
  }

  lemma {:induction false} LastOfIs(chain: seq<Entry>, i: nat)
    requires i < |chain| && LastOfAttempt(chain, i)
    ensures LastOf(chain, chain[i].attempt) == Some(chain[i])
    decreases |chain|
  {
    if i < |chain| - 1 {
      assert chain[|chain| - 1].attempt != chain[i].attempt;
      LastOfIs(chain[..|chain| - 1], i);
    }
  }

  lemma {:induction false} LastOfIsLast(chain: seq<Entry>, k: int) returns (i: nat)
    requires LastOf(chain, k).Some?
    ensures i < |chain| && chain[i].attempt == k && LastOfAttempt(chain, i)
    decreases |chain|
  {
    if chain[|chain| - 1].attempt == k {
      i := |chain| - 1;
    } else {
      i := LastOfIsLast(chain[..|chain| - 1], k);
    }
  }

  /** A receipt is anchored exactly when it is the record of the last link of its attempt. */
  lemma AnchoredExactly(t: Target, k: int, receipt: Record, chain: seq<Entry>)
    requires Recorded(t, chain) && forall i :: 0 <= i < |chain| ==> SealedAt(chain, i)
    ensures ReceiptAnchored(t, k, receipt, chain)
            <==> exists i :: 0 <= i < |chain| && chain[i].attempt == k && LastOfAttempt(chain, i)
                             && receipt == Recording(chain, i)
  {
    hide LastOf;
    if ReceiptAnchored(t, k, receipt, chain) {
      var i := LastOfIsLast(chain, k);
      LastOfIs(chain, i);
      assert SealedAt(chain, i);
      assert receipt == Recording(chain, i);
    }
    forall i | 0 <= i < |chain| && chain[i].attempt == k && LastOfAttempt(chain, i) && receipt == Recording(chain, i)
      ensures ReceiptAnchored(t, k, receipt, chain)
    {
      LastOfIs(chain, i);
      assert SealedAt(chain, i);
    }
  }

  lemma ReceiptsExactly(t: Target, f: Folder, chain: seq<Entry>)
    requires Recorded(t, chain) && forall i :: 0 <= i < |chain| ==> SealedAt(chain, i)
    ensures (forall k :: k in f.receipts ==> ReceiptAnchored(t, k, f.receipts[k], chain))
            <==> (forall k :: k in f.receipts ==>
                    exists i :: 0 <= i < |chain| && chain[i].attempt == k && LastOfAttempt(chain, i)
                                && f.receipts[k] == Recording(chain, i))
  {
    hide ReceiptAnchored;
    hide Recorded;
    hide SealedAt;
    hide LastOfAttempt;
    forall k | k in f.receipts
      ensures ReceiptAnchored(t, k, f.receipts[k], chain)
              <==> exists i :: 0 <= i < |chain| && chain[i].attempt == k && LastOfAttempt(chain, i)
                               && f.receipts[k] == Recording(chain, i)
    {
      AnchoredExactly(t, k, f.receipts[k], chain);
    }
  }

  lemma ClaimsExactly(b: Body, f: Folder, ledger: seq<LedgerEntry>, recoveries: map<string, RecoveryReceipt>)
    requires Shape(b)
    ensures CandidateBound(f, b) && RecoveryBound(b, ledger, recoveries) && LedgerAgrees(b, ledger)
            <==> ClaimsAreBacked(b, f, ledger, recoveries)
  {
  }

  /** The record of the last link is the state exactly when the reader finds it bound to that link. */
  lemma StateExactly(t: Target, rec: Record, chain: seq<Entry>)
    requires Recorded(t, chain) && chain != [] && SealedAt(chain, |chain| - 1)
    ensures var last := chain[|chain| - 1];
            rec.digest == Sha(rec.snapshot) && Matches(rec, last) <==> rec == Recording(chain, |chain| - 1)
    ensures var b := chain[|chain| - 1].digest.snapshot.body;
            && Shape(b) && b.target == t && b.attempt >= 1 && (b.status.Running? ==> b.owner.Some?)
            && b.attempt == chain[|chain| - 1].attempt
  {
    ShapeOf(History(chain), |chain| - 1);
  }

  /**
    On a chain that commits made, a target's folder is trusted exactly when its files are the records of that chain and
    what the last of them claims is backed.
   */
  lemma FolderIsTrustedExactly(t: Target, f: Folder, chain: seq<Entry>, ledger: seq<LedgerEntry>,
                               recoveries: map<string, RecoveryReceipt>)
    requires Recorded(t, chain) && forall i :: 0 <= i < |chain| ==> SealedAt(chain, i)
    ensures Trusted(t, f, chain, ledger, recoveries)
            <==> chain != [] && FilesAreRecorded(f, chain)
                 && ClaimsAreBacked(chain[|chain| - 1].digest.snapshot.body, f, ledger, recoveries)
  {
    hide Recorded;
    hide SealedAt;
    hide ReceiptAnchored;
    hide CandidateBound;
    hide RecoveryBound;
    hide LedgerAgrees;
    hide ClaimsAreBacked;
    hide Matches;
    hide LastOfAttempt;
    ReceiptsExactly(t, f, chain);
    if chain != [] && f.state.Some? {
      var last := |chain| - 1;
      var b := chain[last].digest.snapshot.body;
      StateExactly(t, f.state.value, chain);
      ClaimsExactly(b, f, ledger, recoveries);
      LastReceipt(t, f, chain);
    }
  }

  /** A receipt of the active attempt is the state itself. */
  lemma LastReceipt(t: Target, f: Folder, chain: seq<Entry>)
    requires chain != []
    ensures var last := |chain| - 1;
            var k := chain[last].attempt;
            k in f.receipts
            && (exists i :: 0 <= i < |chain| && chain[i].attempt == k && LastOfAttempt(chain, i)
                            && f.receipts[k] == Recording(chain, i)) ==>
              f.receipts[k] == Recording(chain, last)
  {
  }

  // ----------------------------------------------------------- the whole run

  predicate LedgerIsBacked(t: Target, ledger: seq<LedgerEntry>, recoveries: map<string, RecoveryReceipt>) {
    && (forall i :: 0 <= i < |ledger| ==>
          var e := ledger[i];
          && e.target == t && e.from >= 1 && e.to == (if e.decision == FailForGood then e.from else e.from + 1)
          && e.file in recoveries && recoveries[e.file] == e.receipt
          && e.receipt.from == Some(e.from) && e.receipt.to == Some(e.to) && e.receipt.decision == Some(e.decision))
    && (forall i, j :: 0 <= i < j < |ledger| ==> ledger[i].from != ledger[j].from)
  }

  predicate SomeState(d: Disk, statuses: set<Status>) {
    exists t :: t in d.folders && d.folders[t].state.Some? && d.folders[t].state.value.snapshot.body.status in statuses
  }

  /** The published status rests on the states: completed on all of them, the others on one each. */
  predicate StatusRests(m: Manifest, d: Disk) {
    && (m.status == RunCompleted ==>
          && m.pending == [] && m.ambiguous == []
          && forall t :: t in d.folders && d.folders[t].state.Some? ==>
               d.folders[t].state.value.snapshot.body.status == Completed)
    && (m.status == RunPendingRetry ==> SomeState(d, {RetryScheduled}))
    && (m.status == RunAmbiguous ==>
          || SomeState(d, {Status.Ambiguous})
          || exists t :: t in d.folders && d.folders[t].state.Some? && d.folders[t].state.value.snapshot.body.resolved
                         && d.folders[t].state.value.snapshot.body.status in {RetryScheduled, Failed})
    && (m.status == RunCheckpointPending ==> SomeState(d, {CheckpointPending}))
    && (m.status == RunFailed ==>
          || (forall t :: t in d.folders ==> d.folders[t].state.None?)
          || SomeState(d, {Failed, RetryScheduled, SuccessCandidate}))
  }

  lemma StatusExactly(d: Disk)
    requires d.manifest.Some?
    ensures Consistent(d.manifest.value, States(d)) <==> StatusRests(d.manifest.value, d)
  {
    var states := States(d);
    assert forall t :: t in states <==> t in d.folders && d.folders[t].state.Some?;
    AnyExactly(d, {RetryScheduled});
    AnyExactly(d, {Status.Ambiguous});
    AnyExactly(d, {CheckpointPending});
    AnyExactly(d, {Failed, RetryScheduled, SuccessCandidate});
    hide AnyIn;
    hide SomeState;
    if d.manifest.value.status.RunFailed? && states != map[] {
      var t :| t in states;
    }
  }

  lemma AnyExactly(d: Disk, statuses: set<Status>)
    ensures AnyIn(States(d), statuses) <==> SomeState(d, statuses)
  {
    if SomeState(d, statuses) {
      var t :| t in d.folders && d.folders[t].state.Some?
               && d.folders[t].state.value.snapshot.body.status in statuses;
      assert t in States(d);
    }
  }

  /** The entries are about this target, numbered from one, and each names the digest of the one before. */
  predicate ChainIsLinked(t: Target, chain: seq<Entry>) {
    forall i :: 0 <= i < |chain| ==>
      && chain[i].target == t && chain[i].sequence == i + 1 && chain[i].attempt >= 1
      && chain[i].previous == DigestBefore(chain, i)
  }

  /** What a link names as its predecessor: nothing for the first, the digest of the one before for the others. */
  function DigestBefore(chain: seq<Entry>, i: nat): Option<Digest>
    requires i < |chain|
  {
    if i == 0 then None else Some(chain[i - 1].digest)
  }

  /** A manifest, whoever wrote it, is valid exactly when its chains are linked and its ledgers backed. */
  lemma ManifestsAreValidExactly(m: Manifest, recoveries: map<string, RecoveryReceipt>)
    ensures ValidManifest(m, recoveries) <==>
              && (forall t :: t in m.chains ==> ChainIsLinked(t, m.chains[t]))
              && (forall t :: t in m.ledger ==> LedgerIsBacked(t, m.ledger[t], recoveries))
  {
    forall t | t in m.ledger
      ensures ValidLedger(t, m.ledger[t], recoveries) <==> LedgerIsBacked(t, m.ledger[t], recoveries)
    {
      LedgerExactly(t, m.ledger[t], recoveries);
    }
    forall t | t in m.chains
      ensures ValidChain(t, m.chains[t]) <==> ChainIsLinked(t, m.chains[t])
    {
      ChainExactly(t, m.chains[t]);
    }
    hide ValidLedger;
    hide ValidChain;
    hide LedgerIsBacked;
    hide ChainIsLinked;
  }

  lemma ChainExactly(t: Target, chain: seq<Entry>)
    ensures ValidChain(t, chain) <==> ChainIsLinked(t, chain)
  {
    if ValidChain(t, chain) {
      forall i | 0 <= i < |chain|
        ensures chain[i].previous == DigestBefore(chain, i)
      {
      }
    }
  }

  lemma LedgerExactly(t: Target, ledger: seq<LedgerEntry>, recoveries: map<string, RecoveryReceipt>)
    ensures ValidLedger(t, ledger, recoveries) <==> LedgerIsBacked(t, ledger, recoveries)
  {
    if LedgerIsBacked(t, ledger, recoveries) {
      forall i | 0 <= i < |ledger|
        ensures ValidLedgerEntry(t, ledger[i], recoveries)
      {
      }
    }
    if ValidLedger(t, ledger, recoveries) {
      assert forall i :: 0 <= i < |ledger| ==> ValidLedgerEntry(t, ledger[i], recoveries);
    }
  }

  lemma RecordedIsLinked(d: Disk)
    requires d.manifest.Some? && ChainsRecorded(d)
    ensures forall t :: t in d.manifest.value.chains ==> ChainIsLinked(t, d.manifest.value.chains[t])
  {
    forall t | t in d.manifest.value.chains
      ensures ChainIsLinked(t, d.manifest.value.chains[t])
    {
      assert Recorded(t, d.manifest.value.chains[t]);
      ChainExactly(t, d.manifest.value.chains[t]);
    }
  }

  /** The files of a target are the records of its chain, and what the last of them claims is backed. */
  predicate FolderIsTrue(d: Disk, m: Manifest, t: Target)
    requires t in d.folders
  {
    var chain := ChainOf(m, t);
    && chain != [] && FilesAreRecorded(d.folders[t], chain)
    && ClaimsAreBacked(chain[|chain| - 1].digest.snapshot.body, d.folders[t], LedgerOf(m, t), d.recoveries)
  }

  lemma FolderExactly(d: Disk, t: Target)
    requires d.manifest.Some? && ChainsRecorded(d) && SequencesSealed(d) && t in d.folders
    ensures TrustedIn(d, t) <==> FolderIsTrue(d, d.manifest.value, t)
  {
    hide Trusted;
    hide FilesAreRecorded;
    hide ClaimsAreBacked;
    var m := d.manifest.value;
    assert Recorded(t, ChainOf(m, t)) by {
      assert t !in m.chains ==> Recorded(t, []);
    }
    FolderIsTrustedExactly(t, d.folders[t], ChainOf(m, t), LedgerOf(m, t), d.recoveries);
  }

  lemma FoldersExactly(d: Disk)
    requires d.manifest.Some? && ChainsRecorded(d) && SequencesSealed(d)
    ensures (forall t :: t in d.folders ==> TrustedIn(d, t))
            <==> (forall t :: t in d.folders ==> FolderIsTrue(d, d.manifest.value, t))
  {
    hide TrustedIn;
    hide FolderIsTrue;
    forall t | t in d.folders
      ensures TrustedIn(d, t) <==> FolderIsTrue(d, d.manifest.value, t)
    {
      FolderExactly(d, t);
    }
  }

  /**
    Whatever happened to the files of a reachable run, the readers accept them exactly when every target's files are the
    records of its receipt chain, every claim and every ledger entry is backed, and the published status rests on the
    states.
   */
  lemma ReadersAcceptExactly(actions: seq<Action>, d: Disk)
    requires Run(START, actions).disk.manifest.Some? && d.manifest == Run(START, actions).disk.manifest
    ensures var m := d.manifest.value;
            Accepts(d) <==>
              && (forall t :: t in m.ledger ==> LedgerIsBacked(t, m.ledger[t], d.recoveries))
              && (forall t :: t in m.chains ==> t in d.folders)
              && (forall t :: t in d.folders ==> FolderIsTrue(d, m, t))
              && StatusRests(m, d)
  {
    hide Run;
    hide Consistent;
    hide StatusRests;
    hide ValidManifest;
    hide TrustedIn;
    hide FolderIsTrue;
    hide LedgerIsBacked;
    var w := Run(START, actions);
    EveryRunIsSane(actions);
    SaneChains(w);
    EveryChainIsSealed(actions);
    assert ChainsRecorded(d) && SequencesSealed(d);
    hide ChainIsLinked;
    ManifestsAreValidExactly(d.manifest.value, d.recoveries);
    RecordedIsLinked(d);
    StatusExactly(d);
    FoldersExactly(d);
  }
}
