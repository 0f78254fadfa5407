/**
  The durable records of one run (kigumi/_runstate.py) as values.

  Canonical JSON followed by SHA-256 is modelled as one injective function: a digest is a datatype
  value wrapping what was hashed.  Operations only ever compare digests; proofs may look inside.
 */
module Records {
  import opened Wrappers

  type Target = string
  type Token = nat

  datatype Status =
    | Running
    | SuccessCandidate
    | RetryScheduled
    | Ambiguous
    | CheckpointPending
    | Completed
    | Failed

  datatype Policy = Policy(maxAttempts: nat, retryOn: set<string>)

  /** What `_validate_state` compares: policy digest, declaration digest and Prompt resolutions. */
  datatype Identity = Identity(policy: Option<Policy>, declaration: string, prompts: string)

  datatype Candidate = Candidate(artifact: string, prompts: string)

  datatype Decision = RetryNotStarted | RetryAfterExternalCheck | FailForGood

  datatype RecoveryReceipt = RecoveryReceipt(
    from: Option<int>, to: Option<int>, decision: Option<Decision>, time: Option<string>, detail: string)

  datatype RecoveryMark = RecoveryMark(decision: Decision, file: string, receipt: RecoveryReceipt)

  /** One attempt state without its receipt-chain fields. `note` stands for every other field. */
  datatype Body = Body(
    target: Target,
    attempt: int,
    status: Status,
    effect: bool,
    owner: Option<Token>,
    identity: Identity,
    nextAttempt: int,
    candidate: Option<Candidate>,
    artifact: Option<string>,
    recovery: Option<RecoveryMark>,
    resolved: bool,
    note: string)

  datatype Snapshot = Snapshot(body: Body, sequence: int, previous: Option<Digest>)
  datatype Digest = Sha(snapshot: Snapshot)

  /** A snapshot together with the digest stored beside it: `state.json` and `attempt-NNNN.json`. */
  datatype Record = Record(snapshot: Snapshot, digest: Digest)

  /** One link of a target's receipt chain in `_run.json`. */
  datatype Entry = Entry(target: Target, sequence: int, attempt: int, previous: Option<Digest>, digest: Digest)

  datatype LedgerEntry = LedgerEntry(
    target: Target, from: int, to: int, decision: Decision, file: string, receipt: RecoveryReceipt)

  datatype RunStatus =
    | RunRunning
    | RunPendingRetry
    | RunAmbiguous
    | RunCheckpointPending
    | RunCompleted
    | RunFailed

  datatype Manifest = Manifest(
    identity: string,
    status: RunStatus,
    generation: nat,
    pending: seq<Target>,
    ambiguous: seq<Target>,
    chains: map<Target, seq<Entry>>,
    ledger: map<Target, seq<LedgerEntry>>)

  /** One directory `attempts/<sha(target)>`. */
  datatype Folder = Folder(
    state: Option<Record>,
    receipts: map<int, Record>,
    candidates: map<int, Candidate>,
    resolutions: map<int, string>)

  datatype Disk = Disk(
    manifest: Option<Manifest>,
    folders: map<Target, Folder>,
    recoveries: map<string, RecoveryReceipt>)

  const EMPTY_FOLDER := Folder(None, map[], map[], map[])
  const EMPTY_DISK := Disk(None, map[], map[])
}
