/** The durable readers as the loops they are; each decides exactly what `Durable` says. */
module Readers {
  import opened Wrappers
  import opened Records
  import opened Durable

  /** One link, against the one before it. */
  predicate ValidLink(t: Target, chain: seq<Entry>, i: nat)
    requires i < |chain|
  {
    && chain[i].target == t && chain[i].sequence == i + 1 && chain[i].attempt >= 1
    && chain[i].previous == (if i == 0 then None else Some(chain[i - 1].digest))
  }

  lemma ChainOfLinks(t: Target, chain: seq<Entry>)
    ensures ValidChain(t, chain) <==> forall i :: 0 <= i < |chain| ==> ValidLink(t, chain, i)
  {
    if forall i :: 0 <= i < |chain| ==> ValidLink(t, chain, i) {
      forall i | 0 <= i < |chain|
        ensures chain[i].target == t && chain[i].sequence == i + 1 && chain[i].attempt >= 1
        ensures chain[i].previous == (if i == 0 then None else Some(chain[i - 1].digest))
      {
        assert ValidLink(t, chain, i);
      }
    }
  }

  /** `_validate_receipt_chain`. */
  method ValidateReceiptChain(t: Target, chain: seq<Entry>) returns (ok: bool)
    ensures ok == ValidChain(t, chain)
  {
    ChainOfLinks(t, chain);
    hide ValidChain;
    for index := 0 to |chain|
      invariant forall i :: 0 <= i < index ==> ValidLink(t, chain, i)
    {
      var entry := chain[index];
      if entry.target != t || entry.sequence != index + 1 || entry.attempt < 1 {
        assert !ValidLink(t, chain, index);
        return false;
      }
      var previous := if index == 0 then None else Some(chain[index - 1].digest);
      if entry.previous != previous {
        assert !ValidLink(t, chain, index);
        return false;
      }
    }
    return true;
  }

  /** `_validate_recovery_decision_ledger`, for the entries of one target. */
  method ValidateDecisions(t: Target, ledger: seq<LedgerEntry>, recoveries: map<string, RecoveryReceipt>)
    returns (ok: bool)
    ensures ok == ValidLedger(t, ledger, recoveries)
  {
    var seen: set<int> := {};
    for index := 0 to |ledger|
      invariant ValidLedger(t, ledger[..index], recoveries)
      invariant forall k :: k in seen <==> exists i :: 0 <= i < index && ledger[i].from == k
    {
      var entry := ledger[index];
      assert ledger[..index + 1][index] == entry;
      if entry.from in seen || !ValidLedgerEntry(t, entry, recoveries) {
        return false;
      }
      seen := seen + {entry.from};
    }
    assert ledger[..|ledger|] == ledger;
    return true;
  }

  /** `_validate_manifest`: every chain and every ledger. */
  method ValidateManifest(m: Manifest, recoveries: map<string, RecoveryReceipt>) returns (ok: bool)
    ensures ok == ValidManifest(m, recoveries)
  {
    var chains := m.chains.Keys;
    while chains != {}
      invariant chains <= m.chains.Keys
      invariant forall t :: t in m.chains && t !in chains ==> ValidChain(t, m.chains[t])
      decreases |chains|
    {
      var t :| t in chains;
      ok := ValidateReceiptChain(t, m.chains[t]);
      if !ok {
        return false;
      }
      chains := chains - {t};
    }
    var ledgers := m.ledger.Keys;
    while ledgers != {}
      invariant ledgers <= m.ledger.Keys
      invariant forall t :: t in m.ledger && t !in ledgers ==> ValidLedger(t, m.ledger[t], recoveries)
      decreases |ledgers|
    {
      var t :| t in ledgers;
      ok := ValidateDecisions(t, m.ledger[t], recoveries);
      if !ok {
        return false;
      }
      ledgers := ledgers - {t};
    }
    return true;
  }

  lemma LastOfPrefix(chain: seq<Entry>, n: nat, k: int)
    requires n < |chain|
    ensures LastOf(chain[..n + 1], k) == if chain[n].attempt == k then Some(chain[n]) else LastOf(chain[..n], k)
  {
    assert chain[..n + 1][..n] == chain[..n];
  }

  /** The dictionary `last_by_attempt`. */
  method LastByAttempt(chain: seq<Entry>) returns (last: map<int, Entry>)
    ensures forall k :: LastOf(chain, k) == if k in last then Some(last[k]) else None
    ensures forall k :: k in last <==> exists i :: 0 <= i < |chain| && chain[i].attempt == k
  {
    last := map[];
    for i := 0 to |chain|
      invariant forall k :: LastOf(chain[..i], k) == if k in last then Some(last[k]) else None
      invariant forall k :: k in last <==> exists j :: 0 <= j < i && chain[j].attempt == k
    {
      forall k {
        LastOfPrefix(chain, i, k);
      }
      last := last[chain[i].attempt := chain[i]];
    }
    assert chain[..|chain|] == chain;
  }

  /** `_validate_receipt_record`, and its anchor in `last_by_attempt`. */
  method ValidateReceiptRecord(t: Target, attempt: int, receipt: Record, anchor: Option<Entry>) returns (ok: bool)
    ensures forall chain :: LastOf(chain, attempt) == anchor ==> ok == ReceiptAnchored(t, attempt, receipt, chain)
  {
    var body := receipt.snapshot.body;
    if body.target != t || body.attempt != attempt || receipt.snapshot.sequence < 1
      || receipt.digest != Sha(receipt.snapshot) {
      return false;
    }
    return anchor.Some? && Matches(receipt, anchor.value);
  }

  lemma Inhabited(s: set<int>)
    ensures s == {} || exists k :: k in s
  {
    if forall k :: k !in s {
      assert s <= {};
    }
  }

  /** `_validate_attempt_receipts`: every receipt file anchored, and none missing but the current one. */
  method ValidateAttemptReceipts(t: Target, receipts: map<int, Record>, chain: seq<Entry>) returns (ok: bool)
    ensures ok == ReceiptsAnchored(t, receipts, chain)
  {
    hide ReceiptAnchored;
    var last := LastByAttempt(chain);
    var names := receipts.Keys;
    while names != {}
      invariant names <= receipts.Keys
      invariant forall k :: k in receipts && k !in names ==> ReceiptAnchored(t, k, receipts[k], chain)
      decreases |names|
    {
      Inhabited(names);
      var attempt :| attempt in names;
      ok := ValidateReceiptRecord(t, attempt, receipts[attempt], if attempt in last then Some(last[attempt]) else None);
      assert ok == ReceiptAnchored(t, attempt, receipts[attempt], chain);
      if !ok {
        return false;
      }
      names := names - {attempt};
    }
    if |chain| > 0 {
      var current := chain[|chain| - 1].attempt;
      var attempts := last.Keys;
      while attempts != {}
        invariant attempts <= last.Keys
        invariant forall k :: k in last && k !in attempts ==> k in receipts || k == current
        decreases |attempts|
      {
        Inhabited(attempts);
        var attempt :| attempt in attempts;
        if attempt !in receipts && attempt != current {
          return false;
        }
        attempts := attempts - {attempt};
      }
    }
    return true;
  }

  /** `_validate_recovery_decision_state`. */
  method ValidateDecisionState(b: Body, ledger: seq<LedgerEntry>) returns (ok: bool)
    ensures ok == LedgerAgrees(b, ledger)
  {
    for i := 0 to |ledger|
      invariant LedgerAgrees(b, ledger[..i])
    {
      var entry := ledger[i];
      assert ledger[..i + 1][i] == entry;
      if entry.decision.FailForGood? {
        if b.attempt != entry.from || !b.status.Failed? {
          return false;
        }
      } else if b.attempt < entry.to {
        return false;
      }
    }
    assert ledger[..|ledger|] == ledger;
    return true;
  }

  /** One target directory: its receipts, then its state. */
  method ValidateTarget(t: Target, f: Folder, chain: seq<Entry>, ledger: seq<LedgerEntry>,
                        recoveries: map<string, RecoveryReceipt>) returns (ok: bool)
    ensures ok == Trusted(t, f, chain, ledger, recoveries)
  {
    ok := ValidateAttemptReceipts(t, f.receipts, chain);
    if !ok || f.state.None? {
      return false;
    }
    var record := f.state.value;
    var b := record.snapshot.body;
    if b.target != t || b.attempt < 1 || (b.status.Running? && b.owner.None?) || record.digest != Sha(record.snapshot) {
      return false;
    }
    if chain == [] {
      return false;
    }
    var head := chain[|chain| - 1];
    if !Matches(record, head) || b.attempt != head.attempt || !CandidateBound(f, b)
      || !RecoveryBound(b, ledger, recoveries) {
      return false;
    }
    ok := ValidateDecisionState(b, ledger);
    if !ok {
      return false;
    }
    if b.attempt !in f.receipts {
      return b.status.Running? && !b.effect;
    }
    return f.receipts[b.attempt] == record;
  }

  /** `_validate_all_attempt_receipts`: whether the readers accept the files of a run. */
  method ValidateRun(d: Disk) returns (ok: bool)
    ensures ok == Accepts(d)
  {
    hide Trusted;
    hide Consistent;
    hide ValidManifest;
    if d.manifest.None? {
      return false;
    }
    var m := d.manifest.value;
    ok := ValidateManifest(m, d.recoveries);
    if !ok {
      return false;
    }
    var targets := d.folders.Keys;
    while targets != {}
      invariant targets <= d.folders.Keys
      invariant forall t :: t in d.folders && t !in targets ==> TrustedIn(d, t)
      decreases |targets|
    {
      var t :| t in targets;
      ok := ValidateTarget(t, d.folders[t], ChainOf(m, t), LedgerOf(m, t), d.recoveries);
      assert ok == TrustedIn(d, t);
      if !ok {
        return false;
      }
      targets := targets - {t};
    }
    var anchored := m.chains.Keys;
    while anchored != {}
      invariant anchored <= m.chains.Keys
      invariant forall t :: t in m.chains && t !in anchored ==> t in d.folders
      decreases |anchored|
    {
      var t :| t in anchored;
      if t !in d.folders {
        return false;
      }
      anchored := anchored - {t};
    }
    return Consistent(m, States(d));
  }
}
