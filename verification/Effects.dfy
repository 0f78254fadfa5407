/** What carrying out one decision leaves on disk, wherever it stops. */
module Effects {
  import opened Wrappers
  import opened Records
  import opened Durable
  import opened Protocol
  import opened Commit
  import opened Leases
  import opened Operations

  lemma {:induction false} ApplyAppended(d: Disk, a: seq<Write>, b: seq<Write>)
    ensures ApplyAll(d, a + b) == ApplyAll(ApplyAll(d, a), b)
    decreases |a|
  {
    if a == [] {
      assert a + b == b;
    } else {
      assert (a + b)[1..] == a[1..] + b;
      ApplyAppended(Apply(d, a[0]), a[1..], b);
    }
  }

  /** Files written before a commit: nothing a reader of the old state looks at, and never the manifest. */
  predicate Preparatory(w: Write) {
    w.PutCandidate? || w.PutResolution? || w.PutRecovery?
  }

  predicate Touches(w: Write, t: Target) {
    match w
    case PutManifest(_) => false
    case PutRecovery(_, _) => false
    case _ => w.target == t
  }

  predicate Local(ws: seq<Write>, t: Target) {
    forall i :: 0 <= i < |ws| ==> ws[i].PutManifest? || ws[i].PutRecovery? || Touches(ws[i], t)
  }

  predicate NoManifest(ws: seq<Write>) {
    forall i :: 0 <= i < |ws| ==> !ws[i].PutManifest?
  }

  lemma {:induction false} ManifestUntouched(d: Disk, ws: seq<Write>)
    requires NoManifest(ws)
    ensures ApplyAll(d, ws).manifest == d.manifest
    decreases |ws|
  {
    if ws != [] {
      ManifestUntouched(Apply(d, ws[0]), ws[1..]);
    }
  }

  lemma {:induction false} OtherFoldersUntouched(d: Disk, ws: seq<Write>, t: Target)
    requires Local(ws, t)
    ensures forall u :: u != t ==> (u in ApplyAll(d, ws).folders <==> u in d.folders)
    ensures forall u :: u != t && u in d.folders ==> ApplyAll(d, ws).folders[u] == d.folders[u]
    decreases |ws|
  {
    if ws != [] {
      assert ws[0].PutManifest? || ws[0].PutRecovery? || Touches(ws[0], t);
      forall i | 0 <= i < |ws[1..]|
        ensures ws[1..][i].PutManifest? || ws[1..][i].PutRecovery? || Touches(ws[1..][i], t)
      {
        assert ws[1..][i] == ws[i + 1];
      }
      OtherFoldersUntouched(Apply(d, ws[0]), ws[1..], t);
    }
  }

  predicate EarlyFiles(t: Target, ws: seq<Write>) {
    && |ws| <= 1
    && forall i :: 0 <= i < |ws| ==> Preparatory(ws[i]) && (ws[i].PutRecovery? || ws[i].target == t)
  }

  /** The manifest a finished step publishes. */
  function Published(m: Manifest, t: Target, step: Step, token: Token): Manifest {
    var m' := Decided(m, t, step.decided);
    if step.snapshot then Extended(m', t, Seal(Owned(step.body, step.owner, token), ChainOf(m, t))) else m'
  }

  /** The manifest is the last file written: it changes exactly when everything landed. */
  lemma FinalPrefixes(d: Disk, m: Manifest, t: Target, step: Step, token: Token, k: nat)
    requires k <= |FinalWrites(m, t, step, token)|
    ensures var ws := FinalWrites(m, t, step, token);
            ApplyAll(d, ws[..k]).manifest == (if k < |ws| then d.manifest else Some(Published(m, t, step, token)))
  {
    var ws := FinalWrites(m, t, step, token);
    var n := |ws|;
    assert forall i :: 0 <= i < n - 1 ==> !ws[i].PutManifest?;
    assert ws[n - 1] == PutManifest(Published(m, t, step, token));
    if k < n {
      ManifestUntouched(d, ws[..k]);
    } else {
      assert ws[..k] == ws[..n - 1] + [ws[n - 1]];
      ApplyAppended(d, ws[..n - 1], [ws[n - 1]]);
      assert ApplyAll(ApplyAll(d, ws[..n - 1]), [ws[n - 1]]) == Apply(ApplyAll(d, ws[..n - 1]), ws[n - 1]);
    }
  }

  /** A step publishes its manifest exactly when it finishes. */
  lemma FinishPublishes(v: View, t: Target, step: Step, token: Token)
    requires v.disk.manifest.Some? && EarlyFiles(t, step.before)
    ensures var (v', out) := Finish(v, t, step, token);
            v'.disk.manifest == (if out.Finished? then Some(Published(v.disk.manifest.value, t, step, token))
                                 else v.disk.manifest)
  {
    var k0 := if |step.before| <= v.quota then |step.before| else v.quota;
    assert step.before[..|step.before|] == step.before;
    ManifestUntouched(v.disk, step.before[..k0]);
    var (v1, early) := WriteAll(v, step.before);
    if early && step.blocked.None? {
      var ws := FinalWrites(v.disk.manifest.value, t, step, token);
      var k := if |ws| <= v1.quota then |ws| else v1.quota;
      assert ws[..|ws|] == ws;
      FinalPrefixes(v1.disk, v.disk.manifest.value, t, step, token, k);
    }
  }

  lemma ApplyThree(d: Disk, a: Write, b: Write, c: Write)
    ensures ApplyAll(d, [a, b, c]) == Apply(Apply(Apply(d, a), b), c)
  {
    ApplyAppended(d, [a], [b, c]);
    assert [a] + [b, c] == [a, b, c];
    ApplyAppended(Apply(d, a), [b], [c]);
    assert [b] + [c] == [b, c];
    assert ApplyAll(d, [a]) == Apply(d, a);
    assert ApplyAll(Apply(d, a), [b]) == Apply(Apply(d, a), b);
    assert ApplyAll(Apply(Apply(d, a), b), [c]) == Apply(Apply(Apply(d, a), b), c);
  }

  /** The three writes of a commit, all landed. */
  lemma CommitLanded(d: Disk, m: Manifest, t: Target, body: Body)
    requires body.target == t
    ensures var rec := Seal(body, ChainOf(m, t));
            ApplyAll(d, CommitWrites(m, t, body)) ==
              Disk(Some(Extended(m, t, rec)), d.folders[t := Committed(FolderOf(d, t), rec)], d.recoveries)
  {
    var rec := Seal(body, ChainOf(m, t));
    ApplyThree(d, PutState(t, rec), PutReceipt(t, body.attempt, rec), PutManifest(Extended(m, t, rec)));
    var d1 := Apply(d, PutState(t, rec));
    var d2 := Apply(d1, PutReceipt(t, body.attempt, rec));
    assert d2.folders[t] == Committed(FolderOf(d, t), rec);
    assert d2.folders == d.folders[t := Committed(FolderOf(d, t), rec)];
  }

  /** Every write of a step that commits a snapshot, all landed. */
  lemma StepLanded(d: Disk, m: Manifest, t: Target, step: Step, token: Token)
    requires step.snapshot && step.body.target == t
    ensures var rec := Seal(Owned(step.body, step.owner, token), ChainOf(m, t));
            ApplyAll(d, FinalWrites(m, t, step, token)) ==
              Disk(Some(Published(m, t, step, token)), d.folders[t := Committed(FolderOf(d, t), rec)], d.recoveries)
  {
    var body := Owned(step.body, step.owner, token);
    var m' := Decided(m, t, step.decided);
    var rec := Seal(body, ChainOf(m, t));
    assert ChainOf(m', t) == ChainOf(m, t);
    if step.makesFolder {
      ApplyAppended(d, [MakeFolder(t)], CommitWrites(m', t, body));
      assert ApplyAll(d, [MakeFolder(t)]) == Apply(d, MakeFolder(t));
      var d0 := Apply(d, MakeFolder(t));
      CommitLanded(d0, m', t, body);
      assert d0.folders[t := Committed(FolderOf(d0, t), rec)] == d.folders[t := Committed(FolderOf(d, t), rec)];
    } else {
      assert FinalWrites(m, t, step, token) == CommitWrites(m', t, body);
      CommitLanded(d, m', t, body);
    }
  }
}
