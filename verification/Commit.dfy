/**
  What the ordered writes of one commit do to a run the readers accept, stopped at any point.
 */
module Commit {
  import opened Wrappers
  import opened Records
  import opened Durable
  import opened Protocol

  /** The bodies a receipt chain commits to: digests are injective, so a chain determines its history. */
  function History(chain: seq<Entry>): (h: seq<Body>)
    ensures |h| == |chain|
  {
    seq(|chain|, i requires 0 <= i < |chain| => chain[i].digest.snapshot.body)
  }

  /** A chain that only ever grew through lawful commits. */
  predicate Recorded(t: Target, chain: seq<Entry>) {
    && ValidChain(t, chain)
    && (forall i :: 0 <= i < |chain| ==>
          && chain[i].digest.snapshot.body.target == t
          && chain[i].attempt == chain[i].digest.snapshot.body.attempt)
    && Lawful(History(chain))
  }

  predicate ChainsRecorded(d: Disk) {
    d.manifest.Some? ==> forall t :: t in d.manifest.value.chains ==> Recorded(t, d.manifest.value.chains[t])
  }

  /** `body` may be committed next on `chain`. */
  predicate MayFollow(t: Target, chain: seq<Entry>, body: Body) {
    && body.target == t
    && Shape(body)
    && if chain == [] then Fresh(body) && body.attempt == 1
       else Edge(chain[|chain| - 1].digest.snapshot.body, body)
  }

  lemma RecordedGrows(t: Target, chain: seq<Entry>, body: Body)
    requires Recorded(t, chain) && MayFollow(t, chain, body)
    ensures Recorded(t, chain + [EntryOf(Seal(body, chain))])
    ensures History(chain + [EntryOf(Seal(body, chain))]) == History(chain) + [body]
  {
    var e := EntryOf(Seal(body, chain));
    var more := chain + [e];
    assert History(more) == History(chain) + [body];
    assert e.digest.snapshot.body == body && e.target == t && e.attempt == body.attempt;
    assert forall i :: 0 <= i < |chain| ==> more[i] == chain[i];
    assert more[|chain|] == e;
    assert ValidChain(t, more);
    forall i | 0 < i < |chain| + 1
      ensures Edge(History(chain + [e])[i - 1], History(chain + [e])[i])
    {
      if i < |chain| {
        assert Edge(History(chain)[i - 1], History(chain)[i]);
      }
    }
  }

  /** A trusted state is the content of the last link of its chain. */
  lemma TrustedStateIsLastCommitted(t: Target, f: Folder, chain: seq<Entry>, ledger: seq<LedgerEntry>,
                                    recoveries: map<string, RecoveryReceipt>)
    requires Trusted(t, f, chain, ledger, recoveries) && Recorded(t, chain)
    ensures f.state.value.snapshot == chain[|chain| - 1].digest.snapshot
    ensures f.state.value.snapshot.body == History(chain)[|chain| - 1]
    ensures Shape(f.state.value.snapshot.body)
  {
    ShapeOf(History(chain), |chain| - 1);
  }

  lemma LastOfExtended(chain: seq<Entry>, e: Entry, k: int)
    ensures LastOf(chain + [e], k) == if k == e.attempt then Some(e) else LastOf(chain, k)
  {
    assert (chain + [e])[..|chain|] == chain;
  }

  function Committed(f: Folder, rec: Record): Folder {
    f.(state := Some(rec), receipts := f.receipts[rec.snapshot.body.attempt := rec])
  }

  /** All three writes landed: the folder is trusted again exactly when the new body is bound. */
  lemma CommitTrusted(t: Target, f: Folder, chain: seq<Entry>,
                      ledger0: seq<LedgerEntry>, recoveries0: map<string, RecoveryReceipt>,
                      ledger: seq<LedgerEntry>, recoveries: map<string, RecoveryReceipt>, body: Body)
    requires Recorded(t, chain) && MayFollow(t, chain, body)
    requires if chain == [] then f.receipts == map[] else Trusted(t, f, chain, ledger0, recoveries0)
    ensures var rec := Seal(body, chain);
            var f' := Committed(f, rec);
            Trusted(t, f', chain + [EntryOf(rec)], ledger, recoveries)
            <==> CandidateBound(f', body) && RecoveryBound(body, ledger, recoveries) && LedgerAgrees(body, ledger)
  {
    var rec := Seal(body, chain);
    var e := EntryOf(rec);
    var f' := Committed(f, rec);
    var chain' := chain + [e];
    assert chain'[|chain'| - 1] == e;
    forall k | k in f'.receipts
      ensures ReceiptAnchored(t, k, f'.receipts[k], chain')
    {
      LastOfExtended(chain, e, k);
      if k != body.attempt {
        assert ReceiptAnchored(t, k, f.receipts[k], chain);
      }
    }
    forall i | 0 <= i < |chain'|
      ensures chain'[i].attempt in f'.receipts || chain'[i].attempt == e.attempt
    {
      if i < |chain| {
        TrustedStateIsLastCommitted(t, f, chain, ledger0, recoveries0);
        assert chain[i].attempt in f.receipts || chain[i].attempt == chain[|chain| - 1].attempt;
      }
    }
    assert ReceiptsAnchored(t, f'.receipts, chain');
  }

  /** Only the state, or the state and its receipt, landed: the folder is not trusted. */
  lemma TornFolderIsRejected(t: Target, f: Folder, chain: seq<Entry>, ledger: seq<LedgerEntry>,
                             recoveries: map<string, RecoveryReceipt>, body: Body)
    requires ValidChain(t, chain)
    requires f.state == Some(Seal(body, chain))
    ensures !Trusted(t, f, chain, ledger, recoveries)
  {
    if |chain| > 0 {
      assert chain[|chain| - 1].sequence == |chain|;
    }
  }
}
