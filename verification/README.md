# Kigumi: durable attempts, and seven smaller cores

This project models, in Dafny, the parts of kigumi that promise something about *runs*: what is still
true after crashes, races, interruptions and retries. It proves those promises for every input, every
interleaving and every stopping point, and where the code keeps less than it promises it gives the
exact condition and an input that shows the difference.

## The durable attempt store

`kigumi/_runstate.py` keeps, for each target of a run, a state file, one receipt file for every attempt,
and in `_run.json` a hash-linked chain of receipts, a ledger of recovery decisions and a generation counter.

* `Records`, `Durable`: the files as values, the readers that decide whether to trust them, and the ordered
  atomic writes. Canonical JSON followed by SHA-256 is one injective function (`Digest`).
* `Leases`, `RecoveryNames`, `Operations`: leases with fencing tokens, the search for a free receipt name,
  and what every public operation decides and does, as one function `Perform` of what a store sees. A
  `quota` says how many file writes still succeed, so stopping anywhere is part of every call.
* `Readers`, `AttemptStores`: the same code in its own form, classes whose methods update fields and write one
  file after another, loops over receipts, chains and ledgers. Every method is proved equal to the function
  it stands for, so whatever is proved about `Perform` is about the class.
* `Protocol`, `Commit`, `Effects`, `Decisions`, `Growth`: one target's life as the sequence of its snapshots, and
  what each call may append to it.
* `StoreRuns`, `Safety`: worlds of many processes and stores; a run is any sequence of calls (each cut short
  anywhere), openings, discards and deaths.
* `Crash`, `Interruption`, `Refinement`, `Acceptance`, `Fencing`, `Publication`, `Ledger`, `Terminal`: the results.
* `Answers`, `OperatorAnswers`, `FinalFailures`, `WorldSteps`, `Trust`: what every call answers and commits, what every
  action does to the world, and which files the readers accept, all said by the last committed snapshot, the arguments,
  the lock files and the receipt chains, and not by the functions that compute it
  (`OperatorAnswers.EveryCallIsAnswered`, `Trust.ReadersAcceptExactly`).
* `Witnesses`: runs from an empty directory that show where the code keeps less than it promises.

What the proofs found, with the code kept as it is:

* A fenced store may still commit one snapshot. The lock is checked where a lease is *required* but not where
  a lease already in the table is *acquired*, so while the commit of the store that fenced it has not landed, a
  fenced store can still mark the attempt ambiguous (`Witnesses.FencedStoreCanCommit`). It can do nothing else, and
  exactly then (`Fencing.FencedStoreCommitsOnlyAmbiguity`); once any other store has committed, never again
  (`Fencing.FencedStoreNeverCommitsAgain`).
* A publication of `failed` is admitted for states the readers do not accept with it, for instance a single
  ambiguous attempt; the run is then unreadable (`Witnesses.FailedCanBePublishedUnreadably`). That happens exactly
  when there are attempts and every one is ambiguous, checkpoint pending or completed
  (`Publication.FailedIsUnreadableExactly`).
* `save_candidate` does not compare the candidate's Prompt resolutions with the state's, and `mark_completed` does
  not compare the artifact with the candidate's (`Acceptance.Fits`). Nor does any attempt operation look at the
  published status, which the readers compare with the states: one that takes away the last state the status rests
  on, such as preparing the only retry under `pending_retry`, leaves a run nobody can read. While the status is
  `running` the first two are the only ways an uninterrupted attempt operation can do that; under every status the
  exact condition is `Acceptance.OperationsKeepTheRunAccepted`. There is a run for each of the three
  (`Witnesses.ForeignCandidateIsSaved`, `Witnesses.ForeignArtifactIsCompleted`,
  `Witnesses.PublishedRetryIsPrepared`). `save_candidate` also takes a dictionary without a proper artifact or
  Prompt resolutions, with the same effect; the typed candidates of this model have both.
* Resolving an ambiguous attempt and deciding about a failed one never do that, under any status
  (`Acceptance.ResolveKeepsTheRunAccepted`, `Acceptance.RecoveryKeepsTheRunAccepted`).
* A crash between the writes of a commit fails closed for good: the files are rejected, and no operation ever
  writes them again (`Crash.CrashRefinement`, for whole calls `Interruption.InterruptedCallRefinement`, and
  `Refinement.RejectedRunIsFrozen`).

## The smaller cores

* `Flights`, `Budgets`, `SingleFlight` (`kigumi/calling.py`): what a key's lock answers and shares; the token budget
  with its permits and every way out of the locked part of a call; and the key locks with reference counts, for any
  number of threads. Callers of one lock share its answer, except one that is stopped itself, by the file lock, by
  an unreadable cache entry or while recording a hit, after the lock had settled.
* `Pareto`, `Evolution`, `Resumption`, `Admission`, `Evolver` (`kigumi/optimize.py`): the candidate pool, prompt
  evolution as a function of the state file, the proof that interrupting and resuming changes nothing in the result,
  what exactly a round admits to the pool, by the judge's verdicts alone, and the same loops as a class over a seeded
  generator. Resuming can cost calls: a leg that ends right after completing the baseline, or
  at the cap before a reflection, saves nothing of what it judged since the last save, and the next leg pays for it
  again without the counter showing it (`Resumption.BaselineJudgedTwice`; the exact surplus is
  `Resumption.SpentIsJudgedPlusLost`). The first of these also happens with a round limit of zero. When the last leg
  has no smaller limits than any other, no pair is judged twice exactly when no leg ended so
  (`Resumption.NothingTwiceExactly`).
* `SnapshotReader`, `SnapshotProgress` (`kigumi/_safe_io.py`): reading a file that is written and replaced meanwhile,
  when that fails, and when it must succeed. That every write in
  place changes size or mtime is not enough: the pair must not *return* to an earlier value, as
  `ReturningStampsCanTear` shows on a history of two writes that each change it. `WrongReadingsExactly` says for
  every history whether some reader can get a wrong reading; with the ctime in the identity exactly those are left in
  which the file is replaced before the last look (`WrongStrictReadingsExactly`).
* `Chunks`, `Framing`, `SecretSearch` (`kigumi/pi.py`): framing of JSON Lines and searching for secrets, independent of
  how the bytes are cut. After the settling record the cut does matter (`Framing.CutAfterSettlingMatters`).
* `AliasKinds`, `BindingExpansion`, `BindingMeaning` (`kigumi/enforce.py`): the bounded classification of callable
  aliases, the expansion of bindings until nothing changes, and which elements its rules pick. The names with an unresolved reassignment are removed afterwards in
  whatever order a Python set has, and the order can decide what is left (`BindingExpansion.OrderDecides`); it does
  not exactly when no name resolves only through one that is removed (`BindingExpansion.OrderDoesNotMatterExactly`).
* `InitJournal`, `InitPlan`, `InitTransactions` (`kigumi/cli.py`): what the plan of `init` leaves when it is done, the
  journal of what it changes and the rollback, stopped at any step and anywhere in that step. Four things are not undone: directories the atomic writer made above a file, a created file
  that is written again, what is made but fails the check before it is journaled, and carriage returns in an
  original, which is journaled as Python reads text. `InitJournal.RollbackIsInverse`: the rollback restores the
  project exactly when none of them happened; each has an input (`CarriageReturnIsLost`, `MissingParentStays`,
  `SecondWriteStays`, `UncheckedFileStays`).
* `Prompts` (`kigumi/prompt.py`): fences read back by section 4.5 of CommonMark 0.31, and one-pass templates.

`Wrappers` and `Sets` hold the usual small helpers. Scores and means are reals.

## Model

| member | source | states |
|---|---|---|
| Protocol.AttemptsRiseByOne | kigumi/_runstate.py:1951-2020 | along a chain of committed snapshots attempt numbers never fall, and rise by at most one per snapshot |
| Protocol.SpentLasts | kigumi/_runstate.py:945-997 | an attempt past its boundary stays unrunnable in every later snapshot, unless a checkpoint of that attempt comes between |
| Protocol.AtMostOncePerAttempt | kigumi/_runstate.py:945-997 | two snapshots, one past the boundary of attempt n and a later one running attempt n, have a checkpoint of n strictly between them |
| Protocol.CompletedIsLast | kigumi/_runstate.py:1321-1381 | no snapshot is ever committed after a completed one |
| Commit.RecordedGrows | kigumi/_runstate.py:1977-2015 | appending a sealed lawful snapshot keeps the chain numbered 1..n, linked by digests, and its history lawful |
| Commit.TrustedStateIsLastCommitted | kigumi/_runstate.py:2030-2085 | a state file the reader trusts is exactly the snapshot sealed by the last link of its chain |
| Commit.CommitTrusted | kigumi/_runstate.py:2030-2115 | with all three files of a commit landed the reader trusts the folder if and only if candidate, recovery receipt and ledger fit the new snapshot |
| Commit.TornFolderIsRejected | kigumi/_runstate.py:2063-2082 | a state file one snapshot ahead of the manifest's chain is never trusted |
| Crash.CrashRefinement | kigumi/_runstate.py:1951-2020 | after any proper prefix of the ordered writes of a commit, readers accept the files if and only if nothing changed at all |
| Interruption.InterruptedCallRefinement | kigumi/_runstate.py:724-1517 | any call that was interrupted leaves files the readers accept if and only if no state, receipt, folder or manifest was written since it began, or since the first of the two commits of `resolve` |
| Crash.AcceptedIsLastCommitted | kigumi/_runstate.py:2476-2601 | whenever readers accept, the states they return are the plain map from each target to its last committed snapshot |
| Crash.RejectedStaysRejected | kigumi/_runstate.py:1903-1914 | on files the readers reject every operation raises and writes nothing |
| Refinement.RunsRefineThePlainMap | kigumi/_runstate.py:1951-2020 | over every run each action moves the plain map by nothing, by one lawful numbered and linked commit of its own target, or by two for `resolve`; accepted files read as exactly that map |
| Refinement.RejectedRunIsFrozen | kigumi/_runstate.py:2030-2115 | a run whose files are rejected keeps exactly those files for the rest of every run |
| Refinement.ReachableRunsStayAccepted | kigumi/_runstate.py:907-1431 | in every reachable accepted run, under every published status, an uninterrupted attempt operation keeps the files accepted if and only if it commits nothing, or what it commits fits and leaves the status a state to rest on |
| Acceptance.OperationsKeepTheRunAccepted | kigumi/_runstate.py:907-1431 | the same for one call, with the condition per status read off the arguments and the states found |
| Acceptance.CompletedRunTakesNoCommit | kigumi/_runstate.py:907-1431 | in a completed run only preparing a new target commits anything, and it always leaves a run the readers reject |
| Acceptance.ConsistentAfter | kigumi/_runstate.py:1687-1756 | the readers' comparison of the status holds after one target moved exactly when that target or another still backs the status |
| Witnesses.PublishedRetryIsPrepared | kigumi/_runstate.py:907-1026 | a run from nothing: a retry is scheduled and published, another executor prepares it and is told to run, and the files are rejected |
| Acceptance.RecoveryKeepsTheRunAccepted | kigumi/_runstate.py:1028-1240 | an uninterrupted recovery decision, accepted or refused, leaves a run the readers accept |
| Acceptance.ResolveKeepsTheRunAccepted | kigumi/_runstate.py:1441-1517 | under every published status an uninterrupted `resolve` leaves a run the readers accept |
| Acceptance.CandidateFits | kigumi/_runstate.py:2155-2234 | the candidate binding of a committed update holds exactly when the operation's candidate or artifact fits the state |
| Acceptance.EarlyFileKeepsAccepted | kigumi/_runstate.py:1304-1307 | a candidate, resolution or recovery file written before the commit changes nothing a reader accepts or returns |
| Safety.EveryRunIsSane | kigumi/_runstate.py:561-667 | every reachable world has lawful chains, agreeing leases, tables and lock files with unshared tokens, and a log that matches the chains |
| Safety.NoSecondRunPastTheBoundary | kigumi/_runstate.py:945-997 | over every run with crashes and several executors: after the boundary of attempt n was crossed nobody is told to run n again, unless a checkpoint of n was reached in between |
| Safety.AtMostOneHolder | kigumi/_runstate.py:620-640 | in every reachable world at most one store passes the lease check of a target |
| StoreRuns.DeathKeepsLocks | kigumi/_runstate.py:561-618 | the operating system freeing a dead process's locks keeps leases, tables and lock files in agreement |
| StoreRuns.DropKeepsLocks | kigumi/_runstate.py:319-330 | discarding a store keeps leases, tables and lock files in agreement |
| Fencing.ReleasingFencedIsHarmless | kigumi/_runstate.py:648-663 | releasing a fenced lease leaves every lock file and every process's lease table as it was |
| Fencing.DroppingKeepsOtherLocks | kigumi/_runstate.py:319-323 | discarding a store leaves the lock of a target it was fenced from with its new holder |
| Fencing.FencedStaysFenced | kigumi/_runstate.py:561-618 | a fenced lease stays fenced for as long as the store keeps it |
| Fencing.FencedStoreCommitsOnlyAmbiguity | kigumi/_runstate.py:580-588 | a fenced store commits a snapshot if and only if its own token is still the durable owner of an attempt past the boundary and it prepares or resolves exactly that; and the snapshot is then one `ambiguous` of the same attempt |
| Fencing.AnotherCommitDisowns | kigumi/_runstate.py:1441-1477 | a commit by any other store leaves the target with an owner other than this store's token |
| Fencing.FencedStoreNeverCommitsAgain | kigumi/_runstate.py:945-974 | once another store's commit took a fenced store's target over, no call of that store commits for it, over every continuation in which it keeps its lease |
| Witnesses.FencedStoreCanCommit | kigumi/_runstate.py:580-588 | a run from nothing in which one store fences another and is cut off before its first write; the fenced store's `prepare` then still commits |
| Publication.PublicationIsFenced | kigumi/_runstate.py:686-722 | a status is published only under the generation the store last recorded, advances it by one, changes only status, projections and generation, and never leaves completed |
| Publication.AttemptWritesKeepStatus | kigumi/_runstate.py:1951-2020 | no attempt write changes status, projections or generation |
| Publication.GenerationCountsPublications | kigumi/_runstate.py:686-722 | over every run the generation equals the number of publications |
| Publication.CompletedRunStaysCompleted | kigumi/_runstate.py:839-905 | a run published as completed is completed in every later world |
| Publication.PublishedStatusIsReadable | kigumi/_runstate.py:1687-1756 | a published status passes the readers' comparison exactly when its projections (completed) or the attempts behind it (failed) allow it; always for pending, ambiguous and checkpoint pending |
| Publication.FailedIsUnreadableExactly | kigumi/_runstate.py:883-897 | an admitted publication of `failed` is unreadable if and only if there are attempts and each is ambiguous, checkpoint pending or completed |
| Witnesses.FailedCanBePublishedUnreadably | kigumi/_runstate.py:883-897 | a run from nothing to one ambiguous attempt for which publishing `failed` succeeds and leaves files the readers reject |
| Witnesses.ForeignCandidateIsSaved | kigumi/_runstate.py:1297-1319 | a run from nothing in which `save_candidate` with other Prompt resolutions succeeds and leaves files the readers reject |
| Witnesses.ForeignArtifactIsCompleted | kigumi/_runstate.py:1321-1381 | a run from nothing in which `mark_completed` with another artifact than the candidate's succeeds and leaves files the readers reject |
| Ledger.LedgersAreSane | kigumi/_runstate.py:1872-1901 | over every run the ledger holds at most one decision per target and attempt, and only for committed targets |
| Ledger.RecordsOnlyGrow | kigumi/_runstate.py:1872-1901 | ledgers and receipt chains of every target are append-only over every run |
| Ledger.CompletedTargetStaysCompleted | kigumi/_runstate.py:1321-1330 | a completed target commits nothing more in any continuation |
| Terminal.DecisionsAlwaysHold | kigumi/_runstate.py:2356-2377 | in every reachable world every recorded decision agrees with the last committed snapshot: failed at that attempt, or at least at the attempt retried to |
| Terminal.FailedForGoodIsForever | kigumi/_runstate.py:1131-1218 | a target failed by decision stays failed at that attempt, with the same chain and ledger, in every continuation |
| Terminal.AutomaticRetriesStayWithinPolicy | kigumi/_runstate.py:1383-1431 | without an operator's retry, nobody is ever told to run an attempt past the `max_attempts` of those policies that list the kind of the failure they were asked about |
| FinalFailures.FailureOutsideThePolicyIsFinal | kigumi/_runstate.py:1401-1431 | a recorded failure of a kind its policy does not list, or at its last attempt, leaves the target failed at that attempt; in every continuation without an operator's retry it stays so and nobody is told to run it |
| FinalFailures.FailedStaysFailed | kigumi/_runstate.py:907-1026 | a failed target keeps its snapshot, and no executor is told to run it, until an operator asks for another attempt |
| Answers.PrepareTold | kigumi/_runstate.py:907-1026 | refused exactly under another identity; "completed", "failed", "pending" and the candidate exactly when the last snapshot is completed, failed, a retry not due, a success candidate; ambiguous exactly for an ambiguous attempt or one found past its boundary; told to run exactly attempt 1, the active attempt before its boundary or at a checkpoint, or the due retry's; busy exactly when the lock is not to be had |
| Answers.PrepareCommitted | kigumi/_runstate.py:945-997 | commits exactly a fresh running snapshot of that attempt under the token of a lease then held, the ambiguity it found with the lease given back, or nothing |
| Answers.UpdateTold | kigumi/_runstate.py:1255-1431 | for the five attempt updates, by the last snapshot and the lease alone: the answer in every case, the snapshot committed and the lease given back; completing again is accepted exactly for the same artifact; a failure is retried exactly if its kind is listed and an attempt is left |
| Answers.ResolveTold | kigumi/_runstate.py:1441-1517 | which attempts can be resolved, when the lease or the writes stop it before or between its two commits and what is committed then, and the snapshot, resolution file and freed lease it ends with |
| OperatorAnswers.ScheduleTold | kigumi/_runstate.py:1028-1129 | an undecided active failure of a failed run is queued for exactly the next attempt, with or without a receipt that must say the same; receipt, ledger entry and snapshot land together; every other case is refused with nothing entered |
| OperatorAnswers.RecordTold | kigumi/_runstate.py:1131-1240 | exactly an undecided active failure of a failed run is decided about, once its receipt says the same attempts and decision; a final failure enters the ledger and commits nothing, a retry is committed with its entry |
| OperatorAnswers.PublishTold | kigumi/_runstate.py:811-905 | stale exactly under another generation than recorded; refused exactly when no last snapshot backs the status; otherwise published with the given projections under the next generation, or a no-op |
| OperatorAnswers.InitializeTold | kigumi/_runstate.py:724-799 | a new run gets an empty manifest of its identity exactly in an empty directory; an existing one is taken exactly if accepted and of that identity |
| OperatorAnswers.EveryCallIsAnswered | kigumi/_runstate.py:724-1517 | all of these hold of every call in every reachable run the readers accept |
| WorldSteps.CallIsRecorded | kigumi/_runstate.py:907-1295 | a call leaves exactly the files, locks and store its operation leaves, other stores alone, and one event for each executor let run, past its boundary or at a checkpoint |
| WorldSteps.DeathFreesItsLocks | kigumi/_runstate.py:561-618 | a dead process loses its stores and exactly the lock files they held |
| WorldSteps.DropFreesItsLocks | kigumi/_runstate.py:319-323 | a discarded store gives back exactly the lock files it held |
| Trust.FolderIsTrustedExactly | kigumi/_runstate.py:2030-2115 | on a chain made by commits a target is trusted exactly when its state is the last snapshot, its receipts the last ones of their attempts with only a fresh one missing, and candidate, artifact, recovery mark and decisions are borne out by the other files |
| Trust.ManifestsAreValidExactly | kigumi/_runstate.py:1619-1685 | whoever wrote it, a manifest is valid exactly when every chain is numbered from one and linked, and every ledger entry says what its receipt file says, one decision per attempt |
| Trust.ReadersAcceptExactly | kigumi/_runstate.py:2476-2601 | whatever happened to the files beside the manifest of a reachable run, the readers accept them exactly when all targets are trusted so, every ledger entry has its receipt, and the status rests on the states |
| RecoveryNames.NameRoundTrip | kigumi/_runstate.py:2388-2394 | the suffix of a receipt name can be read back, so different suffixes give different names |
| RecoveryNames.FreeFrom | kigumi/_runstate.py:2391-2416 | the search for a free suffix ends, at the first suffix not in use |
| RecoveryNames.FreeNameIsFirst | kigumi/_runstate.py:2388-2411 | the name is `recovery-<time>.json` if that is free, and else the first free `recovery-<time>-<n>.json` |
| RecoveryNames.FindFreeName | kigumi/_runstate.py:2391-2416 | the loop itself finds that name |
| Readers.ValidateReceiptChain | kigumi/_runstate.py:1619-1663 | the loop accepts exactly the chains numbered from 1 and linked to their predecessors |
| Readers.ValidateDecisions | kigumi/_runstate.py:1779-1859 | the loop with its set of seen attempts accepts exactly valid ledgers with one decision per attempt |
| Readers.ValidateManifest | kigumi/_runstate.py:1674-1685 | accepts exactly manifests whose chains and ledgers are all valid |
| Readers.LastByAttempt | kigumi/_runstate.py:2426 | the dictionary maps each attempt to the last chain entry that names it |
| Readers.ValidateAttemptReceipts | kigumi/_runstate.py:2422-2474 | accepts exactly when every receipt file is the last snapshot of its attempt and none but the current may be missing |
| Readers.ValidateDecisionState | kigumi/_runstate.py:2356-2377 | accepts exactly states that reflect every recorded decision |
| Readers.ValidateTarget | kigumi/_runstate.py:2030-2115 | accepts exactly the trusted folders |
| Readers.ValidateRun | kigumi/_runstate.py:2476-2601 | the whole reader accepts exactly the sound files whose status agrees with the states |
| AttemptStores.AttemptStore.AcquireTargetLease | kigumi/_runstate.py:561-618 | does to leases, process table and lock files what `Leases.Acquire` says, including fencing and refusal |
| AttemptStores.AttemptStore.RequireTargetLease | kigumi/_runstate.py:620-640 | passes exactly when this store holds the open lease under the durable owner's token |
| AttemptStores.AttemptStore.ReleaseTargetLease | kigumi/_runstate.py:648-663 | gives back only its own lease |
| AttemptStores.AttemptStore.WriteState | kigumi/_runstate.py:1951-2020 | state, receipt and manifest in that order, as far as writes succeed; generation and mutation flag only when all did |
| AttemptStores.AttemptStore.ReadRun | kigumi/_runstate.py:1903-1914 | learns the generation on first contact and accepts exactly accepted files |
| AttemptStores.AttemptStore.Initialize | kigumi/_runstate.py:724-799 | whole new state and answer of `initialize` |
| AttemptStores.AttemptStore.UpdateManifest | kigumi/_runstate.py:811-905 | whole new state and answer of `update_manifest` |
| AttemptStores.AttemptStore.Prepare | kigumi/_runstate.py:907-1026 | whole new state and answer of `prepare`, branch by branch, as `Perform`; what that is by the last snapshot: `Answers.PrepareTold`, `Answers.PrepareCommitted` |
| AttemptStores.AttemptStore.StartAttempt | kigumi/_runstate.py:1542-1576 | makes the folder and commits a fresh running snapshot under the store's token |
| AttemptStores.AttemptStore.MarkSideEffect | kigumi/_runstate.py:1255-1277 | whole new state and answer of `mark_side_effect` |
| AttemptStores.AttemptStore.MarkCheckpoint | kigumi/_runstate.py:1279-1295 | whole new state and answer of `mark_checkpoint` |
| AttemptStores.AttemptStore.SaveCandidate | kigumi/_runstate.py:1297-1319 | whole new state and answer of `save_candidate` |
| AttemptStores.AttemptStore.MarkCompleted | kigumi/_runstate.py:1321-1381 | whole new state and answer of `mark_completed` |
| AttemptStores.AttemptStore.RecordFailure | kigumi/_runstate.py:1383-1431 | whole new state and answer of `record_failure`, as `Perform`; what that is by the last snapshot, the policy and the kind: `Answers.UpdateTold` |
| AttemptStores.AttemptStore.Resolve | kigumi/_runstate.py:1441-1517 | whole new state and answer of `resolve`, with both of its commits |
| AttemptStores.AttemptStore.ScheduleRecovery | kigumi/_runstate.py:1028-1129 | whole new state and answer of `schedule_recovery` |
| AttemptStores.AttemptStore.RecordRecoveryDecision | kigumi/_runstate.py:1131-1240 | whole new state and answer of `record_recovery_decision` |
| Budgets.Budget.Reserve | kigumi/calling.py:472-485 | refuses exactly what does not fit, and otherwise opens one reservation; reserved stays the sum of open estimates |
| Budgets.Budget.Commit | kigumi/calling.py:526-537 | settles an active permit once at the reported total, refuses malformed usage and settled permits without change |
| Budgets.Budget.Cancel | kigumi/calling.py:539-544 | releases an active permit, and does nothing to a settled one |
| Budgets.Budget.CommitReserved | kigumi/calling.py:546-553 | settles an active permit once at its estimate |
| Budgets.Budget.Record | kigumi/calling.py:487-495 | adds spending without a reservation, all of it overshoot |
| Budgets.Replaced | kigumi/calling.py:526-553 | settling one entry moves its estimate out of what is held and its cost into what is paid, and nothing else |
| Budgets.SpendingNeverFalls | kigumi/calling.py:466-470 | over any sequence of calls, each continuing the book as every budget method promises, spending never falls and settled entries stay |
| Budgets.LLMCaller.SettleFailedPermit | kigumi/calling.py:1482-1496 | a failed request is charged its estimate exactly when it reached a bounded provider, and released otherwise |
| Budgets.LLMCaller.CallLocked | kigumi/calling.py:699-908 | on every exit at most one reservation was opened and it has been settled, once, at the right cost; at most one request was sent; dry mode and attachments that cannot be expanded leave request count, cache and book as they were and are what is raised when nothing answers before; a request is sent exactly when nothing answers or refuses, the estimate fits and the slot is had; its cost, the cache and the answer by what came back; shared error and result as stated |
| SingleFlight.EveryRunIsSane | kigumi/calling.py:1382-1405 | under every interleaving waiters count the threads of a lock, the holder is alone inside, a lock sees one request at most, and done locks hold an error or the cached result |
| SingleFlight.EverybodySharesTheLock | kigumi/calling.py:1383-1405 | everybody waiting for, inside or leaving a lock uses the one lock object in the table |
| SingleFlight.OneRequestAtATime | kigumi/calling.py:699-757 | at most one request under way, at most one per lock object, and each starts with the key uncached |
| SingleFlight.NothingIsSentAfterSuccess | kigumi/calling.py:699-716 | after one cached success nothing is sent for the key again and the cached text stays |
| SingleFlight.SharedAnswer | kigumi/calling.py:1390-1400 | all callers leaving one lock leave with the same answer, its error or its result, but for those stopped themselves after it had settled |
| SingleFlight.OwnFaultsAreHindrances | kigumi/calling.py:699-716 | such a caller met a failing file lock, an unreadable cache entry or a failing record of a hit, on a settled lock, and left what is shared as it was |
| SingleFlight.RequestStartsExactly | kigumi/calling.py:699-757 | a request starts exactly when a holder with nothing to refuse it finds its lock unsettled, without an error, and the cache readable and empty |
| SingleFlight.EveryTextIsCached | kigumi/calling.py:683-716 | in every interleaving every text a caller is given is the cached one |
| SingleFlight.RequestSettles | kigumi/calling.py:1390-1400 | the outcome of the one request settles its lock: its text is cached and returned, or its fault is the error the lock shares |
| SingleFlight.FirstLook | kigumi/calling.py:683-697 | the first look answers from a readable cache, fails on an unreadable one, and leads on only past an empty one |
| SingleFlight.WayThroughTheLock | kigumi/calling.py:1382-1405 | who missed waits for the lock in the table or a fresh one, a free lock is had, and who leaves keeps its answer |
| Pareto.DominatesIsStrict | kigumi/optimize.py:370-375 | domination is irreflexive and asymmetric, including the tie-break on length |
| Pareto.DominatesIsTransitive | kigumi/optimize.py:370-375 | domination is transitive |
| Pareto.DroppedIsDominated | kigumi/optimize.py:359-367 | pruning keeps the pool non-empty and every dropped candidate is dominated by a survivor |
| Pareto.PrunedIsAntichain | kigumi/optimize.py:359-367 | no survivor dominates another |
| Pareto.PruningKeepsMaxima | kigumi/optimize.py:339-342 | the best score on every validation example is unchanged by pruning |
| Pareto.PruningKeepsWinner | kigumi/optimize.py:424-427 | the candidate `_result` picks is the same before and after pruning |
| Pareto.Winner | kigumi/optimize.py:424-427 | the pick beats every other by mean, then length, then place |
| Pareto.AdmittingNeverLowersTheBest | kigumi/optimize.py:287-298 | admitting a candidate and pruning never lowers the best validation mean |
| Pareto.Parent | kigumi/optimize.py:338-356 | for every draw a parent is chosen, and it is best on some example |
| Pareto.ChooseParent | kigumi/optimize.py:338-356 | the loop counting `pick` down chooses that parent |
| Pareto.DroppedExactly | kigumi/optimize.py:370-375 | a candidate is dropped exactly when another is nowhere worse on the validation examples, and somewhere better or shorter |
| Pareto.PrunedExactly | kigumi/optimize.py:359-367 | pruning leaves exactly the candidates not dropped, in their order |
| Pareto.WeightCounts | kigumi/optimize.py:343-349 | a candidate's weight is the number of validation examples on which nobody scores more |
| Pareto.ParentHasItsShare | kigumi/optimize.py:350-356 | a candidate is drawn exactly when the draw, scaled by all weights, falls in its own share |
| Pareto.MeanByOne | kigumi/optimize.py:412-414 | a mean times the number of scores grows by each score |
| Admission.ScoreIsJudging | kigumi/optimize.py:183-207 | a scoring that completes sets exactly the judge's scores of its examples, whatever was judged before |
| Admission.RoundAdmitsExactly | kigumi/optimize.py:225-303 | by the judge, the reflection and the batch alone: a completed round scores its parent on the batch, and its proposal joins the pool, with exactly its judged scores, and prunes it if and only if the parent is not perfect, the proposal holds up on every batch example and its validation mean is no lower |
| Admission.FinalPoolBeatsEveryAccepted | kigumi/optimize.py:287-303 | however often a run was interrupted, the best mean of the final pool is at least the judged mean of every proposal any completed round of any leg accepted |
| Admission.BatchesTileTraining | kigumi/optimize.py:229-232 | batches go through the training examples over and over, none skipped |
| Admission.RoundsRunOut | kigumi/optimize.py:224-303 | rounds run until all are done unless the cap is spent, none twice and none past the last |
| Evolution.ScoreResumes | kigumi/optimize.py:183-207 | scoring cut short by a cap and resumed under a larger one ends as scoring in one go |
| Evolution.ScoreAgain | kigumi/optimize.py:183-207 | repeating a completed scoring calls nothing and gives the same scores |
| Evolution.RoundResumes | kigumi/optimize.py:225-303 | a round cut short and entered again with a larger cap ends as if never cut |
| Resumption.ResumeEqualsStraightRun | kigumi/optimize.py:134-303 | for any sound state file: interrupt under a smaller cap and round limit, resume, and the final state is that of one run |
| Resumption.InterruptedRunsReturnTheSameResult | kigumi/optimize.py:134-303 | however often and wherever it was interrupted, a resumed evolution returns the result of one run in one go |
| Resumption.CounterCountsJudgments | kigumi/optimize.py:183-207 | `metric_calls` of the run that finishes is the number of pairs it holds judgments for, and within its cap |
| Resumption.SpentIsJudgedPlusLost | kigumi/optimize.py:210-303 | over any legs the metric ran as often as the last one holds pairs and the earlier ones lost judgments; as often as it holds pairs if and only if no earlier leg lost any |
| Resumption.NothingTwiceExactly | kigumi/optimize.py:210-303 | when the last leg has no smaller limits than any before it, no pair is judged in two legs if and only if no earlier leg ended, with judgments unsaved, where nothing is saved |
| Resumption.ResumeJudgesLess | kigumi/optimize.py:134-303 | from one file, every pair judged under smaller limits is judged under larger ones |
| Resumption.LostAndNeverJudgedAgain | kigumi/optimize.py:210-226 | with a last leg of smaller limits a judgment can be lost and nothing judged twice |
| Resumption.BaselineJudgedTwice | kigumi/optimize.py:210-226 | one validation example and a cap of one: two legs judge it twice, and the counter says one |
| Resumption.ScoreCompletes | kigumi/optimize.py:183-207 | scoring completes exactly when the cap leaves one call for each example without a judgment |
| Resumption.BestNeverFallsBelowSeed | kigumi/optimize.py:210-298 | the final pool is scored throughout exactly when the cap covers the distinct validation examples, and then its best mean is at least the seed template's |
| Resumption.ResultIsTheBest | kigumi/optimize.py:417-435 | the returned text belongs to a candidate nobody has a better mean than, or the same and a shorter text, and the gap is its training mean less its validation mean |
| Evolver.Evolver.ScoreItems | kigumi/optimize.py:183-207 | the loop over items, with its calls and judgments, is `Evolution.Score` |
| Evolver.Evolver.RunRound | kigumi/optimize.py:225-303 | one pass of the round loop, with what it saves, is `Evolution.Round`, whose effect on the pool is `Admission.RoundAdmitsExactly`, and uses up one draw |
| Evolver.Evolver.EvolvePrompt | kigumi/optimize.py:110-303 | restoring, replaying the generator and running the rounds ends in the state and file of `Evolution.Resume`; what its rounds admit is `Admission.RoundAdmitsExactly` and `Admission.FinalPoolBeatsEveryAccepted` |
| SnapshotReader.ReadSnapshot | kigumi/_safe_io.py:548-683 | over every history of the file and every schedule of looks the method returns the bytes of the function `Snapshot`, or fails as it does |
| SnapshotReader.Bind | kigumi/_safe_io.py:569-643 | the retry loop, at most 256 attempts, binds the descriptor `Binding` binds and takes as many looks |
| SnapshotReader.TryToBind | kigumi/_safe_io.py:570-641 | one pass of that loop, with the case of an entry replaced after the open |
| SnapshotReader.SnapshotIsWhole | kigumi/_safe_io.py:548-683 | if equal stamps mean no write in between, a reading is the one content its entry named at the `stat` of the last attempt, or had under the expected identity |
| SnapshotReader.TraceableHistoriesArePlausible | kigumi/_safe_io.py:548-564 | if no write in place gives an inode a size and mtime it had before, then under any interleaving with replacements equal stamps mean no write in between |
| SnapshotReader.WrongReadingsExactly | kigumi/_safe_io.py:653-682 | some reader gets a wrong reading from a history if and only if an inode the entry names has another byte between two moments of one size and mtime and the last look does not show it |
| SnapshotReader.NamedStrictReadingsAreWhole | kigumi/_safe_io.py:653-682 | with the ctime in the identity a reading is whole, whatever is written, as long as the entry still names the inode at the last look |
| SnapshotReader.WrongStrictReadingsExactly | kigumi/_safe_io.py:653-682 | with the ctime in the identity some reader gets a wrong reading if and only if such a byte exists and the inode is replaced by another file before the last look |
| SnapshotReader.ReturningStampsCanTear | kigumi/_safe_io.py:653-682 | two writes that each change the mtime, and a reader all of whose checks pass on a mixture; refused with the ctime, unless the entry was replaced meanwhile |
| SnapshotProgress.QuietFilesAreRead | kigumi/_safe_io.py:569-683 | a reader whose first attempts, up to 255, meet a replaced entry and that then finds the file left alone reads exactly its content, if it is the file expected |
| SnapshotProgress.RestlessFilesAreGivenUp | kigumi/_safe_io.py:569-643 | an entry replaced at each of 256 attempts is given up |
| SnapshotProgress.WrongFilesAreRefused | kigumi/_safe_io.py:576-600 | a file left alone that is not the one expected is refused |
| Framing.Frame | kigumi/pi.py:402-592 | the two loops over chunks and buffer are `Framing.Feed` |
| Framing.ChunksDoNotMatter | kigumi/pi.py:402-592 | for every cut, the records handed on up to the settling one and any failure before it are those of the whole stream |
| Framing.AnyTwoCutsAgree | kigumi/pi.py:402-592 | two cuts of the same bytes agree up to the settling record |
| Framing.RecordsAreTheLines | kigumi/pi.py:402-592 | for every cut and every ending, the records handed on, each followed by its newline, are a prefix of the stream, all of it on a plain exit, and each is a proper line |
| Framing.RecordLengthIsExact | kigumi/pi.py:424-441 | a record is too long exactly when its length plus one exceeds the limit, and otherwise taken |
| Framing.WalkMeans | kigumi/pi.py:402-592 | for a whole stream each record handed on was accepted given those before it, the last settles exactly if the stream settled, and what is left shows the fault: nothing, a piece without newline, more than the limit, an empty line, a carriage return, a refused record |
| Framing.OnlyJudgedRecordsAreHanded | kigumi/pi.py:402-592 | for every cut nothing refused is handed on, and the run settles only after a settling record |
| Framing.CutAfterSettlingMatters | kigumi/pi.py:586-592 | two cuts of the same bytes, one settling and one failing, after the settling record |
| SecretSearch.NewHitIsInWindow | kigumi/pi.py:963-968 | a needle not seen before occurs with the next chunk exactly when it occurs in the kept overlap and that chunk |
| SecretSearch.SearchChunks | kigumi/pi.py:953-968 | for every cut a hit is reported exactly when some needle occurs in the whole file |
| SecretSearch.Buffer.AppendBounded | kigumi/pi.py:870-873 | keeps a prefix of the data within the limit and says whether it was all |
| SecretSearch.Buffer.AppendRecordBounded | kigumi/pi.py:876-880 | appends whole records or nothing |
| AliasKinds.JoinedIsModel | kigumi/enforce.py:525-531 | a join is model exactly when there is something and all of it is model |
| AliasKinds.JoinedExactly | kigumi/enforce.py:525-531 | a join keeps a definite kind exactly when there is something and all agree on it, is unknown exactly when all is, and opaque exactly when kinds differ or all are opaque |
| AliasKinds.NameKinds | kigumi/enforce.py:512-522 | the kind of a name by what is known for it, in the order model, higher-order, opaque, safe, then the two builtins |
| AliasKinds.ShapeKinds | kigumi/enforce.py:457-511 | the kinds of attributes, stars, assignment expressions and choices, by those of their parts |
| AliasKinds.FinalIsUnanimous | kigumi/enforce.py:584-629 | a name ends with a definite kind exactly when all its bindings have it in the last round, and is opaque else |
| AliasKinds.ModelAfter | kigumi/enforce.py:582-629 | after r rounds exactly the names that reach a model call in fewer than r steps are model |
| AliasKinds.FewStepsAreEnough | kigumi/enforce.py:582-629 | a name that reaches a model call at all does so in no more steps than there are names |
| AliasKinds.BoundedRoundsFindTheModelNames | kigumi/enforce.py:582-637 | the bounded rounds find a name to be model exactly when all its bindings reach a model call without a cycle |
| AliasKinds.ClassifyAll | kigumi/enforce.py:582-629 | the loop with its early exit computes those rounds |
| AliasKinds.OpaqueOnTheWay | kigumi/enforce.py:582-629 | a name that is opaque after one round and model after two |
| BindingMeaning.SubscriptOfSequence | kigumi/enforce.py:2527-2543 | a subscript i of a known sequence of n elements yields element i, element n + i below zero, and nothing outside or for another key |
| BindingMeaning.DisplayLooksUpLast | kigumi/enforce.py:3319-3337 | a dictionary display maps a key to what the last entry offers for it, unpacked entries included, and is unknown exactly when an entry cannot be told |
| BindingMeaning.UnpackingBinds | kigumi/enforce.py:2649-2668 | an unpacking binds place by place as far as both sides go, a name one value, a star what is at its place |
| BindingMeaning.FlatUnpacking | kigumi/enforce.py:2649-2668 | a flat unpacking binds each name to the element at its own place |
| BindingMeaning.IterationBinds | kigumi/enforce.py:2458-2471 | an iteration binds its target to every element |
| BindingMeaning.SubscriptBindsExactly | kigumi/enforce.py:2437-2471 | for every list literal and index, whatever the passes make of `h = [...]`, `x = h[i]` binds `x` to its subscript and exactly the element i is about, and knows `h` as exactly that list |
| BindingMeaning.SecondOfTwo | kigumi/enforce.py:2415-2471 | expanding `h = [len, ctx.llm]`, `f = h[1]` binds `f` to the model call and not to `len` |
| BindingExpansion.ResolvedInside | kigumi/enforce.py:2491-2567 | containers and elements resolved from an expression are parts of what is there |
| BindingExpansion.Expand | kigumi/enforce.py:2437-2471 | the passes end, keep what they were given, add exactly what a derivation by the rules adds step by step, all of it inside a finite universe, and leave nothing to expand |
| BindingExpansion.ExpandedBindings | kigumi/enforce.py:2415-2484 | hidden outer containers first, then a saturated and derived expansion, then the removal in the given order of bound names |
| BindingExpansion.OrderDoesNotMatterExactly | kigumi/enforce.py:2473-2482 | the removal leaves the same containers for every order of the bound names if and only if no name resolves only through a removed one |
| BindingExpansion.OrderDecides | kigumi/enforce.py:2473-2482 | three assignments for which the order of the set decides whether a name is a container |
| InitJournal.LastIsEmpty | kigumi/cli.py:603-613 | every created directory is empty when its turn to be removed comes |
| InitJournal.UniversalNewlines | kigumi/cli.py:491-495 | text as it is read holds no carriage return, and is the text that was there exactly when that held none |
| InitJournal.KeptIsRestored | kigumi/cli.py:573-614 | rolling back a journal that kept everything within reach restores tree, contents and modes |
| InitJournal.RollbackIsInverse | kigumi/cli.py:498-614 | stopping at any step, with whatever that step still did, and rolling back restores the project exactly when everything made was journaled, no file went under a missing directory, no created file was written again, and no rewritten original held a carriage return |
| InitJournal.CarriageReturnIsLost | kigumi/cli.py:551-556 | a file with a Windows line end comes back with a line feed, even if the write itself failed |
| InitJournal.MissingParentStays | kigumi/cli.py:539-565 | a directory made on the way to a new file stays |
| InitJournal.SecondWriteStays | kigumi/cli.py:539-565 | a created file written a second time stays |
| InitJournal.UncheckedFileStays | kigumi/cli.py:556-565 | a created file that fails the check after its write stays |
| InitJournal.RollbackSparesOthers | kigumi/cli.py:573-614 | a rollback leaves alone whatever has another identity than what was made there |
| InitJournal.FullDirectoryStays | kigumi/cli.py:603-613 | a created directory that holds something a rollback does not take away stays |
| InitPlan.DoneExactly | kigumi/cli.py:507-565 | a step is done exactly when nothing fails and its place is free: the directory or its parent is there, no directory is in a file's place and no file on the way |
| InitPlan.PlanIsApplied | kigumi/cli.py:799-808 | when the whole plan is done every path stands with the text and mode of its last write, every directory of the plan is there, and all else is as it was but for new directories on the way |
| InitTransactions.InitTransaction.EnsureDirectory | kigumi/cli.py:507-537 | walks the components, journals each directory made once it passed its check, and stops at the first that fails, made or not |
| InitTransactions.InitTransaction.WriteText | kigumi/cli.py:539-565 | journals the first original as read before the write, a new file after it, and leaves what a failure at each point leaves |
| InitTransactions.InitTransaction.Rollback | kigumi/cli.py:573-614 | the three loops leave the tree `InitJournal.RolledBack` |
| InitTransactions.Init | kigumi/cli.py:799-813 | the apply loop, directories through `EnsureDirectory` and files through `WriteText`, does the whole plan, or undoes it under that exact condition |
| Prompts.FenceFor | kigumi/prompt.py:1675-1678 | the fence is at least three backticks and longer than any run of them in the body |
| Prompts.FenceIsShortest | kigumi/prompt.py:1675-1678 | the fence is three backticks, or one more than some run in the body |
| Prompts.InjectedBodyIsReadBack | kigumi/prompt.py:1561-1570 | for every body, reading the printed block back gives its info string and exactly the body |
| Prompts.SlotAtExactly | kigumi/prompt.py:35 | a slot stands exactly where a lower-case name stands between double braces |
| Prompts.TextThenSlot | kigumi/prompt.py:1578-1599 | text without an opening brace stays text, and the slot after it is found, whatever follows |
| Prompts.RenderingItselfIsIdentity | kigumi/prompt.py:1583-1599 | a template rendered with every slot bound to its own text is the template |
| Prompts.ValuesAreNotReexpanded | kigumi/prompt.py:1599 | whatever a slot's value contains, it stands in the result as it is |

## Left out

- AttemptStores.AttemptStore.Initialize: does not check the sidecars and materialised artifacts of an existing run; they are no files of this model.
- AttemptStores.AttemptStore.UpdateManifest: leaves out the failure payload of the manifest, which no decision reads.
- AttemptStores.AttemptStore.Prepare: does not check materialisation and lineage of completed targets, for the same reason as `Initialize`.
- AttemptStores.AttemptStore.MarkCompleted: takes the artifact found beside its sidecar as an input instead of reading it.
- Resumption.SpentIsJudgedPlusLost: counts legs that end at an exit of their own; an exception in the reflection, or a process that dies, also loses what was judged since the last save.
- InitTransactions.InitTransaction.Rollback: every restoring write succeeds; the source collects the failures of single ones and goes on.
- Operating-system detail: symbolic links, `O_NOFOLLOW`, descriptors of parent directories, `fsync`, path validation. What is kept is atomic replacement, exclusive creation, and exclusive locks freed on death.
- JSON text, malformed files and SHA-256: a file is a value or absent, and a digest is an injective function of what it seals.
- Clocks, random identifiers and retry delays: due times and all other fields of a state are inputs, tokens are values never used before.
- `dag.py`, `store.py`, `retry.py`, `slots.py` and `transport.py`: a retry policy is its attempt limit and the failures it allows, its schedule always names the next attempt, and slots enter single flight only as a file lock that may fail.
- The binding of sidecars and materialised artifacts in `_runstate.py`: `materialised` is the artifact found beside its sidecar, an input of `mark_completed`; Prompt lineage and managed effects likewise.
- InitJournal.RollbackIsInverse: a write that fails below missing parents may leave any of them, though the source removes what it made when walking down fails; a KeyboardInterrupt, after which nothing is rolled back, and a temporary file that cannot be unlinked are not modelled.
- Several sources of refusal share one fault where the source raises different exceptions with different messages; `record_recovery_decision` refuses an attempt below one before it reads anything, the model after.
- `mark_resumed` and `write_recovery_receipt` write nothing the modelled readers look at.
- The kinds of failure of one store call are modelled by cutting its writes short, not by the exception each device error becomes.
- The rest of the model call: preparing messages, cache keys, evidence and metadata. Building metadata is taken not to raise.
- Budgets.LLMCaller.CallLocked: leaves out `BaseException`s that are no `Exception`, for which the source settles the permit and records nothing.
- Rendering the reflection prompt, calling the model, extracting the fenced candidate and its length and leak gates: one deterministic function of the parent and its judgments.
- A state file of another experiment or seed, which the source discards: the state file is one this experiment wrote.
- Timeouts, the death of the Pi process and the meaning of its events: a judge says of each record whether it is accepted, settles or is refused.
- How the classification of aliases finds the candidates of a choice: a choice comes with them.
- Rounding of scores: means are exact.
- The mode of the init hook, set after everything else; changes other processes make to the project meanwhile.
- Line endings other than a line feed in fenced material.
- Inspection, describing, waivers, the raw-IO visitor, configuration, bench summaries and the TypeScript bridge: breadth without depth.
