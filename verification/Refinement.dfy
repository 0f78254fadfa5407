/**
  A run of the attempt store, with all its files, crashes and executors, refines a plain map from
  each target to its last committed snapshot, changed by one lawful commit at a time.
 */
module Refinement {
  import opened Wrappers
  import opened Records
  import opened Durable
  import opened Protocol
  import opened Commit
  import opened Leases
  import opened Operations
  import opened Decisions
  import opened Growth
  import opened Crash
  import opened Acceptance
  import opened Publication
  import opened StoreRuns
  import opened Safety
  import opened Ledger

  type Committed = map<Target, Record>

  /** One step of the plain map: the next snapshot of `t`, numbered and linked to the one before. */
  predicate CommitsTo(s: Committed, s': Committed, t: Target, body: Body) {
    var snapshot := Snapshot(body, if t in s then s[t].snapshot.sequence + 1 else 1,
                             if t in s then Some(s[t].digest) else None);
    && s' == s[t := Record(snapshot, Sha(snapshot))]
    && body.target == t && Shape(body)
    && if t in s then Edge(s[t].snapshot.body, body) else Fresh(body) && body.attempt == 1
  }

  ghost predicate Commits(s: Committed, s': Committed, t: Target) {
    s' == s || exists body :: CommitsTo(s, s', t, body)
  }

  lemma SameChainsSameMap(d: Disk, d': Disk)
    requires SameChains(d, d')
    ensures LastCommitted(d') == LastCommitted(d)
    ensures SequencesSealed(d) ==> SequencesSealed(d')
  {
    if d'.manifest.Some? {
      forall t, i | 0 <= i < |ChainOf(d'.manifest.value, t)|
        ensures SequencesSealed(d) ==> SealedAt(ChainOf(d'.manifest.value, t), i)
      {
        assert d.manifest.Some? ==> ChainOf(d'.manifest.value, t) == ChainOf(d.manifest.value, t);
      }
    }
  }

  /** A recorded chain numbers its entries and seals them, so its last entry is the last record. */
  lemma LastRecord(d: Disk, t: Target)
    requires ChainsRecorded(d) && d.manifest.Some?
    ensures var chain := ChainOf(d.manifest.value, t);
            && (t in LastCommitted(d) <==> chain != [])
            && (chain != [] ==>
                  && LastCommitted(d)[t].digest == Last(chain).digest
                  && LastCommitted(d)[t].snapshot == Last(chain).digest.snapshot
                  && Last(chain).sequence == |chain|)
  {
  }

  /** Appending a sealed snapshot to a chain is one step of the plain map. */
  lemma AppendedCommits(d: Disk, d': Disk, t: Target, body: Body)
    requires ChainsRecorded(d) && SequencesSealed(d) && Appended(d, d', t, body)
    ensures CommitsTo(LastCommitted(d), LastCommitted(d'), t, body)
    ensures SequencesSealed(d')
  {
    hide Recorded;
    hide Shape;
    hide Fresh;
    hide Edge;
    hide LastCommitted;
    var chain := ChainOf(d.manifest.value, t);
    LastRecord(d, t);
    assert chain != [] ==> SealedAt(chain, |chain| - 1);
    AppendedMap(d, d', t, body);
    forall u, i | 0 <= i < |ChainOf(d'.manifest.value, u)|
      ensures SealedAt(ChainOf(d'.manifest.value, u), i)
    {
      assert i < |ChainOf(d.manifest.value, u)| ==> SealedAt(ChainOf(d.manifest.value, u), i);
    }
  }

  lemma AppendedMap(d: Disk, d': Disk, t: Target, body: Body)
    requires Appended(d, d', t, body)
    ensures LastCommitted(d') == LastCommitted(d)[t := Seal(body, ChainOf(d.manifest.value, t))]
  {
    hide MayFollow;
  }

  predicate SealedAt(chain: seq<Entry>, i: nat)
    requires i < |chain|
  {
    chain[i].digest.snapshot.sequence == i + 1 && chain[i] == EntryOf(Record(chain[i].digest.snapshot, chain[i].digest))
  }

  /** Every digest in a chain was taken of the snapshot with that entry's number, and the entry repeats what it says. */
  ghost predicate SequencesSealed(d: Disk) {
    d.manifest.Some? ==> forall t, i :: 0 <= i < |ChainOf(d.manifest.value, t)| ==>
      SealedAt(ChainOf(d.manifest.value, t), i)
  }

  lemma OneCommitCommits(d: Disk, d': Disk, t: Target)
    requires ChainsRecorded(d) && SequencesSealed(d) && OneCommit(d, d', t)
    ensures Commits(LastCommitted(d), LastCommitted(d'), t)
    ensures SequencesSealed(d')
  {
    hide Appended;
    if SameChains(d, d') {
      SameChainsSameMap(d, d');
    } else {
      var body :| Appended(d, d', t, body);
      AppendedCommits(d, d', t, body);
    }
  }

  /** What one call may do to the plain map. */
  ghost predicate CallCommits(s: Committed, s': Committed, op: Operation) {
    match op
    case Initialize(_) => s' == s
    case Publish(_, _, _) => s' == s
    case Resolve(t, _, _, _) => exists mid :: Commits(s, mid, t) && Commits(mid, s', t)
    case _ => Commits(s, s', op.target)
  }

  lemma CallRefines(v: View, op: Operation, note: string)
    requires ChainsRecorded(v.disk) && SequencesSealed(v.disk)
    ensures var d' := Perform(v, op, note).0.disk;
            CallCommits(LastCommitted(v.disk), LastCommitted(d'), op) && SequencesSealed(d')
  {
    hide PerformDecided;
    hide PerformResolve;
    hide PerformPublish;
    hide PerformInitialize;
    hide Appended;
    hide ChainsRecorded;
    hide SequencesSealed;
    hide Commits;
    var d' := Perform(v, op, note).0.disk;
    if op.Initialize? || op.Publish? {
      ManifestEffect(v, op, note);
      OneCommitCommits(v.disk, d', "");
      SameChainsSameMap(v.disk, d');
    } else if op.Resolve? {
      var mid := ResolveEffect(v, op.target, op.attempt, op.retry, op.reason, note);
      OneCommitCommits(v.disk, mid, op.target);
      OneCommitCommits(mid, d', op.target);
    } else {
      var body := DecidedEffect(v, op, note);
      OneCommitCommits(v.disk, d', op.target);
    }
  }

  lemma {:induction false} EveryChainIsSealed(actions: seq<Action>)
    ensures SequencesSealed(Run(START, actions).disk)
    decreases |actions|
  {
    hide Perform;
    hide Sane;
    hide SequencesSealed;
    if actions == [] {
      assert SequencesSealed(EMPTY_DISK) by { NothingSealed(); }
    } else {
      var w := Run(START, actions[..|actions| - 1]);
      var a := actions[|actions| - 1];
      EveryChainIsSealed(actions[..|actions| - 1]);
      EveryRunIsSane(actions[..|actions| - 1]);
      SaneChains(w);
      if a.Call? && a.store in w.stores {
        CallRefines(ViewOf(w, a.store, a.quota), a.op, a.note);
      }
    }
  }

  lemma NothingSealed()
    ensures SequencesSealed(EMPTY_DISK)
  {
  }

  // ----------------------------------------------------------- main results

  /**
    However a run is interleaved and wherever its calls stop, each action moves the plain map by
    nothing, by one commit of its own target, or (resolving) by two; and whenever the readers
    accept the files they return exactly the plain map.
   */
  lemma RunsRefineThePlainMap(actions: seq<Action>, a: Action)
    ensures var w := Run(START, actions);
            var w' := Run(START, actions + [a]);
            && (if a.Call? then CallCommits(LastCommitted(w.disk), LastCommitted(w'.disk), a.op)
                else LastCommitted(w'.disk) == LastCommitted(w.disk))
            && (Accepts(w'.disk) ==> States(w'.disk) == LastCommitted(w'.disk))
  {
    hide Perform;
    hide Accepts;
    hide Sane;
    hide SequencesSealed;
    var w := Run(START, actions);
    assert (actions + [a])[..|actions|] == actions;
    var w' := Run(START, actions + [a]);
    EveryRunIsSane(actions);
    EveryRunIsSane(actions + [a]);
    EveryChainIsSealed(actions);
    SaneChains(w);
    SaneChains(w');
    if a.Call? && a.store in w.stores {
      CallRefines(ViewOf(w, a.store, a.quota), a.op, a.note);
    } else {
      assert Commits(LastCommitted(w.disk), LastCommitted(w'.disk),
                     if a.Call? && !a.op.Initialize? && !a.op.Publish? then a.op.target else "");
    }
    if Accepts(w'.disk) {
      AcceptedIsLastCommitted(w'.disk);
    }
  }

  /** A run whose files the readers reject is never written again. */
  lemma {:induction false} RejectedRunIsFrozen(first: seq<Action>, more: seq<Action>)
    requires var d := Run(START, first).disk;
             d.manifest.Some? && !Accepts(d)
    ensures Run(START, first + more).disk == Run(START, first).disk
    decreases |more|
  {
    hide Perform;
    hide Accepts;
    if more == [] {
      assert first + more == first;
    } else {
      var almost := more[..|more| - 1];
      assert (first + more)[..|first + more| - 1] == first + almost;
      RejectedRunIsFrozen(first, almost);
      var w := Run(START, first + almost);
      var a := more[|more| - 1];
      if a.Call? && a.store in w.stores {
        RejectedStaysRejected(ViewOf(w, a.store, a.quota), a.op, a.note);
      }
    }
  }

  /**
    In every reachable run the readers accept, whatever its published status, an attempt operation that is not
    interrupted keeps it accepted exactly when it commits nothing, or something that fits and leaves the status backed.
   */
  lemma ReachableRunsStayAccepted(actions: seq<Action>, s: StoreId, op: Operation, note: string, quota: nat)
    requires s in Run(START, actions).stores && Accepts(Run(START, actions).disk)
    requires (OnExistingState(op) || op.Prepare?) && !op.ScheduleRecovery? && !op.RecordRecovery?
    ensures var w := Run(START, actions);
            var (v', reply) := Perform(ViewOf(w, s, quota), op, note);
            && w.disk.manifest.Some?
            && (reply != Raised(Interrupted) ==>
                  (Accepts(v'.disk) <==> v'.disk.manifest == w.disk.manifest || KeepsAccepted(op, w.disk)))
  {
    hide Perform;
    hide Sane;
    hide Run;
    hide Sound;
    hide KeepsAccepted;
    EveryRunIsSane(actions);
    LedgersAreSane(actions);
    var w := Run(START, actions);
    SaneChains(w);
    AcceptedParts(w.disk);
    assert LedgersBacked(w.disk) by { BackedBoth(w.disk); }
    OperationsKeepTheRunAccepted(ViewOf(w, s, quota), op, note);
  }

  lemma BackedBoth(d: Disk)
    requires Backed(d)
    ensures LedgersBacked(d)
  {
    if d.manifest.Some? {
      forall t | LedgerOf(d.manifest.value, t) != []
        ensures ChainOf(d.manifest.value, t) != []
      {
        assert LedgerIn(d, t) != [];
      }
    }
  }
}
