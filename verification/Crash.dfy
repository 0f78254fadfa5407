/**
  Crash refinement: stopped after any prefix of its ordered writes, a commit either has not
  happened, or has happened, or leaves files that every reader rejects.
 */
module Crash {
  import opened Wrappers
  import opened Records
  import opened Durable
  import opened Protocol
  import opened Commit
  import opened Operations
  import opened Effects
  import opened Decisions

  lemma TornStateIsRejected(d: Disk, t: Target, body: Body)
    requires d.manifest.Some? && Recorded(t, ChainOf(d.manifest.value, t))
    requires t in d.folders && d.folders[t].state == Some(Seal(body, ChainOf(d.manifest.value, t)))
    ensures !Accepts(d)
  {
    var m := d.manifest.value;
    TornFolderIsRejected(t, d.folders[t], ChainOf(m, t), LedgerOf(m, t), d.recoveries, body);
    assert !TrustedIn(d, t);
  }

  lemma EmptyFolderIsRejected(d: Disk, t: Target)
    requires t in d.folders && d.folders[t].state.None?
    ensures !Accepts(d)
  {
    assert d.manifest.Some? ==> !TrustedIn(d, t);
  }

  /** The state file after a prefix of the final writes. */
  lemma PrefixState(d: Disk, m: Manifest, t: Target, step: Step, token: Token, k: nat)
    requires step.snapshot && step.body.target == t && k < |FinalWrites(m, t, step, token)|
    ensures var ws := FinalWrites(m, t, step, token);
            var d' := ApplyAll(d, ws[..k]);
            var rec := Seal(Owned(step.body, step.owner, token), ChainOf(m, t));
            && d'.manifest == d.manifest && d'.recoveries == d.recoveries
            && (k == 0 ==> d' == d)
            && (k == 1 && step.makesFolder ==> d' == d.(folders := d.folders[t := FolderOf(d, t)]))
            && (k >= (if step.makesFolder then 2 else 1) ==> t in d'.folders && d'.folders[t].state == Some(rec))
  {
    var ws := FinalWrites(m, t, step, token);
    FinalPrefixes(d, m, t, step, token, k);
    var body := Owned(step.body, step.owner, token);
    var rec := Seal(body, ChainOf(m, t));
    var m' := Decided(m, t, step.decided);
    assert ChainOf(m', t) == ChainOf(m, t);
    var i := if step.makesFolder then 1 else 0;
    assert ws[i] == PutState(t, rec) && ws[i + 1] == PutReceipt(t, body.attempt, rec);
    if k == 0 {
      assert ws[..k] == [];
    } else if k == 1 {
      assert ws[..k] == [ws[0]];
      assert ApplyAll(d, [ws[0]]) == Apply(d, ws[0]);
    } else if k == 2 {
      assert ws[..k] == [ws[0]] + [ws[1]];
      ApplyAppended(d, [ws[0]], [ws[1]]);
      assert ApplyAll(d, [ws[0]]) == Apply(d, ws[0]);
      assert ApplyAll(Apply(d, ws[0]), [ws[1]]) == Apply(Apply(d, ws[0]), ws[1]);
    } else {
      assert ws[..k] == [ws[0], ws[1], ws[2]];
      ApplyThree(d, ws[0], ws[1], ws[2]);
    }
  }

  /** Readers accept the files after a proper prefix exactly when nothing changed at all. */
  lemma CrashRefinement(d: Disk, t: Target, step: Step, token: Token, k: nat)
    requires d.manifest.Some? && Accepts(d) && ChainsRecorded(d) && step.snapshot && step.body.target == t
    requires k < |FinalWrites(d.manifest.value, t, step, token)|
    requires t !in d.folders ==> step.makesFolder
    ensures var d' := ApplyAll(d, FinalWrites(d.manifest.value, t, step, token)[..k]);
            Accepts(d') <==> d' == d
  {
    hide Accepts;
    var m := d.manifest.value;
    var d' := ApplyAll(d, FinalWrites(m, t, step, token)[..k]);
    var body := Owned(step.body, step.owner, token);
    PrefixState(d, m, t, step, token, k);
    if k >= (if step.makesFolder then 2 else 1) {
      assert Recorded(t, ChainOf(m, t)) by {
        assert t !in m.chains ==> Recorded(t, []);
      }
      TornStateIsRejected(d', t, body);
    } else if k == 1 {
      if t in d.folders {
        assert d.folders[t := FolderOf(d, t)] == d.folders;
      } else {
        EmptyFolderIsRejected(d', t);
      }
    }
  }

  /** The plain map a run refines: from each target to its last committed snapshot. */
  function LastCommitted(d: Disk): map<Target, Record> {
    if d.manifest.None? then map[]
    else map t | t in d.manifest.value.chains && |d.manifest.value.chains[t]| > 0 ::
           Record(Last(d.manifest.value.chains[t]).digest.snapshot, Last(d.manifest.value.chains[t]).digest)
  }

  function Last(chain: seq<Entry>): Entry
    requires |chain| > 0
  {
    chain[|chain| - 1]
  }

  /** Accepted states are exactly the last committed snapshots. */
  lemma AcceptedIsLastCommitted(d: Disk)
    requires Accepts(d) && ChainsRecorded(d)
    ensures States(d) == LastCommitted(d)
  {
    hide Recorded;
    hide Trusted;
    forall t | t in d.folders
      ensures t in LastCommitted(d) && t in States(d) && States(d)[t] == LastCommitted(d)[t]
    {
      AcceptedRecord(d, t);
    }
    AcceptedFolders(d);
  }

  lemma AcceptedFolders(d: Disk)
    requires Accepts(d)
    ensures d.manifest.Some? && forall t :: t in d.manifest.value.chains ==> t in d.folders
  {
    hide Trusted;
    hide ValidManifest;
    hide Consistent;
  }

  lemma AcceptedRecord(d: Disk, t: Target)
    requires Accepts(d) && ChainsRecorded(d) && t in d.folders
    ensures var chain := ChainOf(d.manifest.value, t);
            && chain != [] && d.folders[t].state == Some(Record(Last(chain).digest.snapshot, Last(chain).digest))
  {
    hide Consistent;
    hide ValidManifest;
    hide ReceiptsAnchored;
    hide CandidateBound;
    hide RecoveryBound;
    hide LedgerAgrees;
    AcceptedState(d, t);
    assert TrustedIn(d, t);
  }

  /** Files the readers reject are never touched again: every operation fails closed. */
  lemma RejectedStaysRejected(v: View, op: Operation, note: string)
    requires v.disk.manifest.Some? && !Accepts(v.disk)
    ensures Perform(v, op, note).0.disk == v.disk
    ensures Perform(v, op, note).1.Raised?
  {
  }
}
