/** When a snapshot read succeeds: on a file left alone, and after up to 255 replacements met on the way to it. */
module SnapshotProgress {
  import opened Wrappers
  import opened SnapshotReader

  /** From look `n` on the entry names this file, and nothing changes. */
  ghost predicate Quiet(at: History, when: Schedule, n: nat, ino: Ino, f: File) {
    forall m: nat :: m >= n ==>
      Sight(at, when, m).entry == Some(ino) && ino in Sight(at, when, m).files && Sight(at, when, m).files[ino] == f
  }

  lemma QuietStat(at: History, when: Schedule, n: nat, ino: Ino, f: File, m: nat)
    requires Quiet(at, when, n, ino, f) && m >= n
    ensures EntryStat(Sight(at, when, m)) == Some(StatOf(ino, f))
    ensures DescriptorStat(Sight(at, when, m), ino) == Some(StatOf(ino, f))
  {
    assert Sight(at, when, m).entry == Some(ino);
  }

  /** The look at which attempt `k` starts. */
  function AttemptStart(at: History, when: Schedule, n: nat, expected: Option<Identity>, strict: bool, k: nat): nat {
    if k == 0 then n
    else AttemptToBind(at, when, AttemptStart(at, when, n, expected, strict, k - 1), expected, strict).next
  }

  ghost predicate AllReplaced(at: History, when: Schedule, n: nat, expected: Option<Identity>, strict: bool, k: nat) {
    forall i: nat :: i < k ==>
      AttemptToBind(at, when, AttemptStart(at, when, n, expected, strict, i), expected, strict).Replaced?
  }

  lemma {:induction false} ReplacementsAreRetried(at: History, when: Schedule, n: nat, expected: Option<Identity>,
                                                  strict: bool, k: nat)
    requires k < MAX_ATTEMPTS && AllReplaced(at, when, n, expected, strict, k)
    ensures Binding(at, when, n, 0, expected, strict)
            == Binding(at, when, AttemptStart(at, when, n, expected, strict, k), k, expected, strict)
    decreases k
  {
    hide AttemptToBind;
    if k > 0 {
      ReplacementsAreRetried(at, when, n, expected, strict, k - 1);
      assert AttemptToBind(at, when, AttemptStart(at, when, n, expected, strict, k - 1), expected, strict).Replaced?;
    }
  }

  lemma {:induction false} QuietRead(at: History, when: Schedule, n: nat, ino: Ino, f: File, m: nat, got: Bytes,
                                     patience: nat)
    requires Quiet(at, when, n, ino, f) && m >= n && got <= f.content && |f.content| < patience
    ensures ReadOn(at, when, m, ino, got, patience) == Some(f.content)
    decreases |f.content| - |got|
  {
    assert ino in Sight(at, when, m + |got|).files && Sight(at, when, m + |got|).files[ino] == f;
    if |got| < |f.content| {
      QuietRead(at, when, n, ino, f, m, got + [f.content[|got|]], patience);
    } else {
      assert got == f.content;
    }
  }

  lemma QuietBinds(at: History, when: Schedule, n: nat, ino: Ino, f: File, expected: Option<Identity>, strict: bool)
    requires Quiet(at, when, n, ino, f)
    requires expected.None? || expected == Some(IdentityOf(StatOf(ino, f), strict))
    ensures AttemptToBind(at, when, n, expected, strict)
            == Found(Bound(ino, StatOf(ino, f), if expected.Some? then n + 2 else n), n + 4)
  {
    QuietStat(at, when, n, ino, f, n);
    QuietStat(at, when, n, ino, f, n + 1);
    QuietStat(at, when, n, ino, f, n + 2);
    QuietStat(at, when, n, ino, f, n + 3);
  }

  /**
    A reader whose first attempts meet a replaced entry, fewer than 256 of them, and that then finds the file left
    alone, reads exactly its content, if that is the file it expects.
   */
  lemma QuietFilesAreRead(at: History, when: Schedule, n: nat, k: nat, ino: Ino, f: File, expected: Option<Identity>,
                          strict: bool, patience: nat)
    requires k < MAX_ATTEMPTS && AllReplaced(at, when, n, expected, strict, k)
    requires Quiet(at, when, AttemptStart(at, when, n, expected, strict, k), ino, f) && |f.content| < patience
    requires expected.None? || expected == Some(IdentityOf(StatOf(ino, f), strict))
    ensures var r := Snapshot(at, when, n, expected, strict, patience);
            r.Some? && r.value.raw == f.content && r.value.ino == ino
  {
    hide AttemptToBind;
    hide AttemptStart;
    hide ReadOn;
    hide Quiet;
    var m := AttemptStart(at, when, n, expected, strict, k);
    ReplacementsAreRetried(at, when, n, expected, strict, k);
    QuietBinds(at, when, m, ino, f, expected, strict);
    QuietRead(at, when, m, ino, f, m + 4, [], patience);
    QuietStat(at, when, m, ino, f, m + 4 + |f.content| + 1);
    QuietStat(at, when, m, ino, f, m + 4 + |f.content| + 2);
  }

  /** An entry that names another file at each of 256 attempts is given up. */
  lemma RestlessFilesAreGivenUp(at: History, when: Schedule, n: nat, expected: Option<Identity>, strict: bool,
                                patience: nat)
    requires AllReplaced(at, when, n, expected, strict, MAX_ATTEMPTS)
    ensures Snapshot(at, when, n, expected, strict, patience).None?
  {
    hide AttemptToBind;
    hide AttemptStart;
    ReplacementsAreRetried(at, when, n, expected, strict, MAX_ATTEMPTS - 1);
  }

  /** An attempt is repeated when the entry named one file at its first look and another one from then on. */
  lemma ReplacedAtOnce(at: History, when: Schedule, n: nat, ino: Ino, strict: bool)
    requires var w := Sight(at, when, n); w.entry == Some(ino) && ino in w.files
    requires forall m: nat :: n < m <= n + 3 ==>
               var w := Sight(at, when, m); w.entry.Some? && w.entry.value != ino && w.entry.value in w.files
    ensures AttemptToBind(at, when, n, None, strict).Replaced?
  {
    assert EntryStat(Sight(at, when, n + 1)).Some?;
    assert EntryStat(Sight(at, when, n + 3)).Some?;
  }

  /** A file that is not there, or not the one expected, is refused. */
  lemma WrongFilesAreRefused(at: History, when: Schedule, n: nat, ino: Ino, f: File, expected: Identity, strict: bool,
                             patience: nat)
    requires Quiet(at, when, n, ino, f) && expected != IdentityOf(StatOf(ino, f), strict)
    ensures Snapshot(at, when, n, Some(expected), strict, patience).None?
  {
    QuietStat(at, when, n, ino, f, n);
    QuietStat(at, when, n, ino, f, n + 1);
    QuietStat(at, when, n, ino, f, n + 2);
    QuietStat(at, when, n, ino, f, n + 3);
  }
}
