/**
  The files of a run, the readers that decide whether to trust them, and the ordered atomic
  writes that commit one snapshot (kigumi/_runstate.py).
 */
module Durable {
  import opened Wrappers
  import opened Records

  // ---------------------------------------------------------------- readers

  function ChainOf(m: Manifest, t: Target): seq<Entry> {
    if t in m.chains then m.chains[t] else []
  }

  function LedgerOf(m: Manifest, t: Target): seq<LedgerEntry> {
    if t in m.ledger then m.ledger[t] else []
  }

  predicate ValidChain(t: Target, chain: seq<Entry>) {
    forall i :: 0 <= i < |chain| ==>
      && chain[i].target == t
      && chain[i].sequence == i + 1
      && chain[i].attempt >= 1
      && chain[i].previous == (if i == 0 then None else Some(chain[i - 1].digest))
  }

  predicate ValidLedger(t: Target, ledger: seq<LedgerEntry>, recoveries: map<string, RecoveryReceipt>) {
    && (forall i :: 0 <= i < |ledger| ==> ValidLedgerEntry(t, ledger[i], recoveries))
    && (forall i, j :: 0 <= i < j < |ledger| ==> ledger[i].from != ledger[j].from)
  }

  predicate ValidLedgerEntry(t: Target, e: LedgerEntry, recoveries: map<string, RecoveryReceipt>) {
    && e.target == t
    && e.from >= 1
    && e.to == (if e.decision.FailForGood? then e.from else e.from + 1)
    && e.file in recoveries
    && recoveries[e.file] == e.receipt
    && e.receipt.from == Some(e.from)
    && e.receipt.to == Some(e.to)
    && e.receipt.decision == Some(e.decision)
  }

  predicate ValidManifest(m: Manifest, recoveries: map<string, RecoveryReceipt>) {
    && (forall t :: t in m.chains ==> ValidChain(t, m.chains[t]))
    && (forall t :: t in m.ledger ==> ValidLedger(t, m.ledger[t], recoveries))
  }

  /** The entry `last_by_attempt` keeps for an attempt. */
  function LastOf(chain: seq<Entry>, attempt: int): Option<Entry> {
    if |chain| == 0 then None
    else if chain[|chain| - 1].attempt == attempt then Some(chain[|chain| - 1])
    else LastOf(chain[..|chain| - 1], attempt)
  }

  predicate Matches(rec: Record, e: Entry) {
    && rec.snapshot.sequence == e.sequence
    && rec.snapshot.previous == e.previous
    && rec.digest == e.digest
  }

  predicate ReceiptAnchored(t: Target, attempt: int, receipt: Record, chain: seq<Entry>) {
    && receipt.snapshot.body.target == t
    && receipt.snapshot.body.attempt == attempt
    && receipt.snapshot.sequence >= 1
    && receipt.digest == Sha(receipt.snapshot)
    && LastOf(chain, attempt).Some?
    && Matches(receipt, LastOf(chain, attempt).value)
  }

  predicate ReceiptsAnchored(t: Target, receipts: map<int, Record>, chain: seq<Entry>) {
    && (forall k :: k in receipts ==> ReceiptAnchored(t, k, receipts[k], chain))
    && (forall i :: 0 <= i < |chain| ==>
          chain[i].attempt in receipts || chain[i].attempt == chain[|chain| - 1].attempt)
  }

  predicate CandidateBound(f: Folder, b: Body) {
    match b.candidate
    case None => !b.status.SuccessCandidate?
    case Some(c) =>
      && b.attempt in f.candidates
      && f.candidates[b.attempt] == c
      && c.prompts == b.identity.prompts
      && (b.status.Completed? && b.artifact.Some? ==> b.artifact.value == c.artifact)
  }

  predicate RecoveryBound(b: Body, ledger: seq<LedgerEntry>, recoveries: map<string, RecoveryReceipt>) {
    match b.recovery
    case None => true
    case Some(r) =>
      && r.file in recoveries
      && recoveries[r.file] == r.receipt
      && r.receipt.decision == Some(r.decision)
      && exists i :: 0 <= i < |ledger| && ledger[i].file == r.file && ledger[i].receipt == r.receipt
                     && ledger[i].decision == r.decision
  }

  predicate LedgerAgrees(b: Body, ledger: seq<LedgerEntry>) {
    forall i :: 0 <= i < |ledger| ==>
      if ledger[i].decision.FailForGood? then b.attempt == ledger[i].from && b.status.Failed?
      else b.attempt >= ledger[i].to
  }

  predicate StateBound(t: Target, f: Folder, chain: seq<Entry>, ledger: seq<LedgerEntry>,
                       recoveries: map<string, RecoveryReceipt>)
    requires f.state.Some?
  {
    var rec := f.state.value;
    var b := rec.snapshot.body;
    && b.target == t
    && b.attempt >= 1
    && (b.status.Running? ==> b.owner.Some?)
    && rec.digest == Sha(rec.snapshot)
    && |chain| > 0
    && Matches(rec, chain[|chain| - 1])
    && b.attempt == chain[|chain| - 1].attempt
    && CandidateBound(f, b)
    && RecoveryBound(b, ledger, recoveries)
    && LedgerAgrees(b, ledger)
    && (if b.attempt in f.receipts then f.receipts[b.attempt] == rec else b.status.Running? && !b.effect)
  }

  predicate Trusted(t: Target, f: Folder, chain: seq<Entry>, ledger: seq<LedgerEntry>,
                    recoveries: map<string, RecoveryReceipt>)
  {
    && f.state.Some?
    && ReceiptsAnchored(t, f.receipts, chain)
    && StateBound(t, f, chain, ledger, recoveries)
  }

  predicate TrustedIn(d: Disk, t: Target)
    requires d.manifest.Some? && t in d.folders
  {
    Trusted(t, d.folders[t], ChainOf(d.manifest.value, t), LedgerOf(d.manifest.value, t), d.recoveries)
  }

  /** Everything `_validate_all_attempt_receipts` checks before the run status is compared. */
  predicate Sound(d: Disk) {
    && d.manifest.Some?
    && ValidManifest(d.manifest.value, d.recoveries)
    && (forall t :: t in d.folders ==> TrustedIn(d, t))
    && (forall t :: t in d.manifest.value.chains ==> t in d.folders)
  }

  /** The states the reader returns: one trusted record per target directory. */
  function States(d: Disk): map<Target, Record> {
    map t | t in d.folders && d.folders[t].state.Some? :: d.folders[t].state.value
  }

  predicate AnyIn(states: map<Target, Record>, statuses: set<Status>) {
    exists t :: t in states && states[t].snapshot.body.status in statuses
  }

  predicate ResolvedBehind(states: map<Target, Record>) {
    exists t :: t in states && states[t].snapshot.body.resolved
                && states[t].snapshot.body.status in {RetryScheduled, Failed}
  }

  /** `_validate_manifest_state_consistency`. */
  predicate Consistent(m: Manifest, states: map<Target, Record>) {
    match m.status
    case RunRunning => true
    case RunCompleted =>
      && (forall t :: t in states ==> states[t].snapshot.body.status.Completed?)
      && m.pending == [] && m.ambiguous == []
    case RunPendingRetry => AnyIn(states, {RetryScheduled})
    case RunAmbiguous => AnyIn(states, {Ambiguous}) || ResolvedBehind(states)
    case RunCheckpointPending => AnyIn(states, {CheckpointPending})
    case RunFailed => states == map[] || AnyIn(states, {Failed, RetryScheduled, SuccessCandidate})
  }

  /** What every durable reader demands; anything else fails closed. */
  predicate Accepts(d: Disk) {
    Sound(d) && Consistent(d.manifest.value, States(d))
  }

  // ----------------------------------------------------------------- writes

  /** One atomic replacement (or exclusive creation) of one file. */
  datatype Write =
    | MakeFolder(target: Target)
    | PutState(target: Target, record: Record)
    | PutReceipt(target: Target, attempt: int, record: Record)
    | PutCandidate(target: Target, attempt: int, candidate: Candidate)
    | PutResolution(target: Target, attempt: int, reason: string)
    | PutRecovery(file: string, receipt: RecoveryReceipt)
    | PutManifest(manifest: Manifest)

  function FolderOf(d: Disk, t: Target): Folder {
    if t in d.folders then d.folders[t] else EMPTY_FOLDER
  }

  function Apply(d: Disk, w: Write): Disk {
    match w
    case MakeFolder(t) => d.(folders := d.folders[t := FolderOf(d, t)])
    case PutState(t, r) => d.(folders := d.folders[t := FolderOf(d, t).(state := Some(r))])
    case PutReceipt(t, k, r) =>
      d.(folders := d.folders[t := FolderOf(d, t).(receipts := FolderOf(d, t).receipts[k := r])])
    case PutCandidate(t, k, c) =>
      d.(folders := d.folders[t := FolderOf(d, t).(candidates := FolderOf(d, t).candidates[k := c])])
    case PutResolution(t, k, s) =>
      d.(folders := d.folders[t := FolderOf(d, t).(resolutions := FolderOf(d, t).resolutions[k := s])])
    case PutRecovery(file, r) => d.(recoveries := d.recoveries[file := r])
    case PutManifest(m) => d.(manifest := Some(m))
  }

  function ApplyAll(d: Disk, ws: seq<Write>): Disk
    decreases ws
  {
    if ws == [] then d else ApplyAll(Apply(d, ws[0]), ws[1..])
  }

  function Seal(body: Body, chain: seq<Entry>): Record {
    var snapshot := Snapshot(body, |chain| + 1, if chain == [] then None else Some(chain[|chain| - 1].digest));
    Record(snapshot, Sha(snapshot))
  }

  function EntryOf(rec: Record): Entry {
    var b := rec.snapshot.body;
    Entry(b.target, rec.snapshot.sequence, b.attempt, rec.snapshot.previous, rec.digest)
  }

  function Extended(m: Manifest, t: Target, rec: Record): Manifest {
    m.(chains := m.chains[t := ChainOf(m, t) + [EntryOf(rec)]])
  }

  /** The three ordered writes of `_write_state_locked`. */
  function CommitWrites(m: Manifest, t: Target, body: Body): seq<Write> {
    var rec := Seal(body, ChainOf(m, t));
    [PutState(t, rec), PutReceipt(t, body.attempt, rec), PutManifest(Extended(m, t, rec))]
  }
}
