/**
  Reading one complete snapshot of a file that other processes write in place and replace
  atomically while it is being read (kigumi/_safe_io.py).
 */
module SnapshotReader {
  import opened Wrappers

  type Bytes = seq<bv8>
  type Ino = nat

  datatype File = File(content: Bytes, mtime: nat, ctime: nat)

  /** What the directory entry names, and every inode a descriptor may refer to. */
  datatype World = World(entry: Option<Ino>, files: map<Ino, File>)

  datatype Stat = Stat(ino: Ino, size: nat, mtime: nat, ctime: nat)

  /** An identity compares inode, size and mtime, and the ctime too if the caller asks for it. */
  datatype Identity = Identity(ino: Ino, size: nat, mtime: nat, ctime: Option<nat>)

  function IdentityOf(s: Stat, strict: bool): Identity {
    Identity(s.ino, s.size, s.mtime, if strict then Some(s.ctime) else None)
  }

  function StatOf(ino: Ino, f: File): Stat {
    Stat(ino, |f.content|, f.mtime, f.ctime)
  }

  /** The filesystem over time, as far as this file is concerned. */
  type History = nat -> World

  predicate SameStamp(a: File, b: File) {
    |a.content| == |b.content| && a.mtime == b.mtime
  }

  /** Between two moments at which an inode carries one size and mtime its content did not change. */
  ghost predicate Plausible(at: History) {
    forall i: nat, k: nat, j: nat, ino: Ino ::
      i <= k <= j && ino in at(i).files && ino in at(k).files && ino in at(j).files
      && SameStamp(at(i).files[ino], at(j).files[ino]) ==>
        at(k).files[ino].content == at(i).files[ino].content
  }

  // -------------------------------------------------- what other processes do

  datatype Action =
    | WriteInPlace(ino: Ino, content: Bytes, mtime: nat)
    | Replace(content: Bytes, mtime: nat)
    | Unlink

  /** Stamps an inode ever had are kept to say which writes leave a trace. */
  datatype Disk = Disk(world: World, unused: Ino, clock: nat, past: map<Ino, set<(nat, nat)>>)

  predicate Traceable(d: Disk, a: Action) {
    a.WriteInPlace? && a.ino in d.world.files && a.ino in d.past ==> (|a.content|, a.mtime) !in d.past[a.ino]
  }

  /** An atomic replacement names a new inode; the old one lives on, with a new ctime. */
  function Do(d: Disk, a: Action): Disk {
    match a
    case WriteInPlace(ino, content, mtime) =>
      if ino !in d.world.files then d
      else d.(world := d.world.(files := d.world.files[ino := File(content, mtime, d.clock)]), clock := d.clock + 1,
              past := d.past[ino := (if ino in d.past then d.past[ino] else {}) + {(|content|, mtime)}])
    case Replace(content, mtime) =>
      d.(world := World(Some(d.unused), Unlinked(d)[d.unused := File(content, mtime, d.clock)]),
         unused := d.unused + 1, clock := d.clock + 1, past := d.past[d.unused := {(|content|, mtime)}])
    case Unlink => d.(world := World(None, Unlinked(d)), clock := d.clock + 1)
  }

  function Unlinked(d: Disk): map<Ino, File> {
    if d.world.entry.Some? && d.world.entry.value in d.world.files
    then d.world.files[d.world.entry.value := d.world.files[d.world.entry.value].(ctime := d.clock)]
    else d.world.files
  }

  function After(d: Disk, actions: nat -> Action, n: nat): Disk {
    if n == 0 then d else Do(After(d, actions, n - 1), actions(n - 1))
  }

  /** Every inode is older than the next new one, and its stamp is among its past stamps. */
  ghost predicate Recorded(d: Disk) {
    forall ino :: ino in d.world.files ==>
      && ino < d.unused && ino in d.past
      && (|d.world.files[ino].content|, d.world.files[ino].mtime) in d.past[ino]
  }

  lemma DoRecords(d: Disk, a: Action)
    requires Recorded(d)
    ensures Recorded(Do(d, a))
    ensures forall ino :: ino in d.world.files ==>
              ino in Do(d, a).world.files && ino in Do(d, a).past && d.past[ino] <= Do(d, a).past[ino]
  {
  }

  lemma {:induction false} RunRecords(d: Disk, actions: nat -> Action, i: nat, j: nat)
    requires Recorded(d) && i <= j
    ensures Recorded(After(d, actions, i)) && Recorded(After(d, actions, j))
    ensures forall ino :: ino in After(d, actions, i).world.files ==>
              && ino in After(d, actions, j).world.files && ino in After(d, actions, i).past
                 && ino in After(d, actions, j).past
              && After(d, actions, i).past[ino] <= After(d, actions, j).past[ino]
    decreases j
  {
    hide Do;
    hide Recorded;
    if j > 0 {
      if i < j {
        RunRecords(d, actions, i, j - 1);
      } else {
        RunRecords(d, actions, j - 1, j - 1);
      }
      DoRecords(After(d, actions, j - 1), actions(j - 1));
      RecordedParts(After(d, actions, i));
    }
    RecordedParts(After(d, actions, i));
  }

  lemma RecordedParts(d: Disk)
    ensures Recorded(d) ==> forall ino :: ino in d.world.files ==>
      ino in d.past && (|d.world.files[ino].content|, d.world.files[ino].mtime) in d.past[ino]
  {
  }

  /** One action leaves a content alone, or gives its inode a stamp it never had. */
  lemma DoLeavesTrace(d: Disk, a: Action, ino: Ino)
    requires Recorded(d) && Traceable(d, a) && ino in d.world.files
    ensures var (f, f') := (d.world.files[ino], Do(d, a).world.files[ino]);
            || (f'.content == f.content && f'.mtime == f.mtime)
            || ((|f'.content|, f'.mtime) !in d.past[ino] && a.WriteInPlace? && a.ino == ino)
  {
  }

  function FileAt(d: Disk, actions: nat -> Action, n: nat, ino: Ino): File
    requires ino in After(d, actions, n).world.files
  {
    After(d, actions, n).world.files[ino]
  }

  ghost predicate Unwritten(d: Disk, actions: nat -> Action, i: nat, k: nat, ino: Ino) {
    forall m: nat :: i <= m <= k ==>
      ino in After(d, actions, m).world.files && ino in After(d, actions, i).world.files
      && FileAt(d, actions, m, ino).content == FileAt(d, actions, i, ino).content
      && FileAt(d, actions, m, ino).mtime == FileAt(d, actions, i, ino).mtime
  }

  /** An inode was not written between two moments, or carries a stamp that was new after the first. */
  ghost predicate UnwrittenOrNew(d: Disk, actions: nat -> Action, i: nat, k: nat, ino: Ino)
    requires ino in After(d, actions, i).past && ino in After(d, actions, k).world.files
  {
    || Unwritten(d, actions, i, k, ino)
    || (|FileAt(d, actions, k, ino).content|, FileAt(d, actions, k, ino).mtime) !in After(d, actions, i).past[ino]
  }

  lemma OneStepFurther(d: Disk, actions: nat -> Action, i: nat, k: nat, ino: Ino)
    requires i < k && ino in After(d, actions, i).past && ino in After(d, actions, i).world.files
    requires ino in After(d, actions, k - 1).world.files && UnwrittenOrNew(d, actions, i, k - 1, ino)
    requires ino in After(d, actions, k).world.files && ino in After(d, actions, k - 1).past
    requires After(d, actions, i).past[ino] <= After(d, actions, k - 1).past[ino]
    requires var (f, f') := (FileAt(d, actions, k - 1, ino), FileAt(d, actions, k, ino));
             (f'.content == f.content && f'.mtime == f.mtime)
               || (|f'.content|, f'.mtime) !in After(d, actions, k - 1).past[ino]
    ensures UnwrittenOrNew(d, actions, i, k, ino)
  {
    hide After;
    var f, f' := FileAt(d, actions, k - 1, ino), FileAt(d, actions, k, ino);
    if Unwritten(d, actions, i, k - 1, ino) && f'.content == f.content && f'.mtime == f.mtime {
      forall m: nat | i <= m <= k
        ensures ino in After(d, actions, m).world.files
        ensures FileAt(d, actions, m, ino).content == FileAt(d, actions, i, ino).content
        ensures FileAt(d, actions, m, ino).mtime == FileAt(d, actions, i, ino).mtime
      {
        assert m < k ==> m <= k - 1;
      }
    }
  }

  lemma {:induction false} NeverTheSameStamp(d: Disk, actions: nat -> Action, i: nat, k: nat, ino: Ino)
    requires Recorded(d) && (forall n: nat :: Traceable(After(d, actions, n), actions(n)))
    requires i <= k && ino in After(d, actions, i).world.files
    ensures ino in After(d, actions, k).world.files && ino in After(d, actions, i).past
    ensures UnwrittenOrNew(d, actions, i, k, ino)
    decreases k
  {
    hide Do;
    hide Recorded;
    hide UnwrittenOrNew;
    hide Traceable;
    hide After;
    RunRecords(d, actions, i, k);
    if i == k {
      RecordedParts(After(d, actions, i));
      NotYet(d, actions, i, ino);
    } else {
      NeverTheSameStamp(d, actions, i, k - 1, ino);
      RunRecords(d, actions, i, k - 1);
      RecordedParts(After(d, actions, k - 1));
      OneAction(d, actions, k - 1);
      DoLeavesTrace(After(d, actions, k - 1), actions(k - 1), ino);
      OneStepFurther(d, actions, i, k, ino);
    }
  }

  lemma OneAction(d: Disk, actions: nat -> Action, n: nat)
    ensures After(d, actions, n + 1) == Do(After(d, actions, n), actions(n))
  {
  }

  lemma NotYet(d: Disk, actions: nat -> Action, i: nat, ino: Ino)
    requires ino in After(d, actions, i).world.files && ino in After(d, actions, i).past
    ensures UnwrittenOrNew(d, actions, i, i, ino)
  {
    hide After;
    assert Unwritten(d, actions, i, i, ino);
  }

  /** Whatever other processes do, if every write in place leaves a trace the history is plausible. */
  lemma TraceableHistoriesArePlausible(d: Disk, actions: nat -> Action)
    requires Recorded(d) && (forall n: nat :: Traceable(After(d, actions, n), actions(n)))
    ensures Plausible((n: nat) => After(d, actions, n).world)
  {
    hide After;
    hide Recorded;
    hide Traceable;
    var at: History := (n: nat) => After(d, actions, n).world;
    forall i: nat, k: nat, j: nat, ino: Ino
      | i <= k <= j && ino in at(i).files && ino in at(k).files && ino in at(j).files
        && SameStamp(at(i).files[ino], at(j).files[ino])
      ensures at(k).files[ino].content == at(i).files[ino].content
    {
      NeverTheSameStamp(d, actions, i, j, ino);
      StampIsPast(d, actions, i, ino);
      assert Unwritten(d, actions, i, j, ino);
    }
  }

  lemma StampIsPast(d: Disk, actions: nat -> Action, i: nat, ino: Ino)
    requires Recorded(d) && ino in After(d, actions, i).world.files
    ensures ino in After(d, actions, i).past
    ensures (|FileAt(d, actions, i, ino).content|, FileAt(d, actions, i, ino).mtime) in After(d, actions, i).past[ino]
  {
    RunRecords(d, actions, i, i);
    RecordedParts(After(d, actions, i));
  }

  // ------------------------------------------------------ what a reader sees

  const MAX_ATTEMPTS: nat := 256

  /** The moments of a reader's looks, one after another. */
  type Schedule = nat -> nat

  ghost predicate Forward(when: Schedule) {
    forall m: nat, n: nat :: m <= n ==> when(m) <= when(n)
  }

  lemma Later(when: Schedule, m: nat, n: nat)
    requires Forward(when) && m <= n
    ensures when(m) <= when(n)
  {
  }

  /** `directory.stat`: what the entry names. */
  function EntryStat(w: World): Option<Stat> {
    if w.entry.None? || w.entry.value !in w.files then None else Some(StatOf(w.entry.value, w.files[w.entry.value]))
  }

  /** `os.fstat` of a descriptor. */
  function DescriptorStat(w: World, ino: Ino): Option<Stat> {
    if ino in w.files then Some(StatOf(ino, w.files[ino])) else None
  }

  /** A descriptor, the `fstat` it was accepted with, and the look whose content a reading of it stands for. */
  datatype Bound = Bound(ino: Ino, initial: Stat, stated: nat)

  /** How one attempt to bind a descriptor ends, and the number of the next look. */
  datatype Attempt = Found(bound: Bound, next: nat) | Replaced(next: nat) | Failed(next: nat)

  /** What was read, from which inode, the look it stands for, and the look of the last `fstat`. */
  datatype Reading = Reading(raw: Bytes, ino: Ino, stated: nat, last: nat)

  function Sight(at: History, when: Schedule, n: nat): World {
    at(when(n))
  }

  /** Opening what the entry names at look `n`, with the `fstat` of look `n + 1`. */
  function Opened(at: History, when: Schedule, n: nat, identity: Identity, strict: bool): Option<Ino> {
    var entry := EntryStat(Sight(at, when, n));
    if entry.None? then None
    else
      var s := DescriptorStat(Sight(at, when, n + 1), entry.value.ino);
      if s.Some? && IdentityOf(s.value, strict) == identity then Some(entry.value.ino) else None
  }

  /** One attempt to bind a descriptor to the entry, from look `n` on. */
  function AttemptToBind(at: History, when: Schedule, n: nat, expected: Option<Identity>, strict: bool): Attempt {
    var before := EntryStat(Sight(at, when, n));
    if before.None? then Failed(n + 1)
    else
      var identity := if expected.Some? then expected.value else IdentityOf(before.value, strict);
      var handle := Opened(at, when, n + 1, identity, strict);
      if handle.None? then
        var m := if EntryStat(Sight(at, when, n + 1)).None? then n + 2 else n + 3;
        var current := EntryStat(Sight(at, when, m));
        if current.Some? && current.value.ino != before.value.ino then Replaced(m + 1) else Failed(m + 1)
      else
        var stated := if expected.Some? then n + 2 else n;
        var initial := DescriptorStat(Sight(at, when, n + 3), handle.value);
        if initial.None? then Failed(n + 4)
        else if IdentityOf(initial.value, strict) == identity
          then Found(Bound(handle.value, initial.value, stated), n + 4)
        else
          var current := EntryStat(Sight(at, when, n + 4));
          if current.None? then Failed(n + 5)
          else
            var descriptor := DescriptorStat(Sight(at, when, n + 5), handle.value);
            if descriptor.Some? && current.value.ino != descriptor.value.ino && Same(descriptor.value, before.value)
            then Found(Bound(handle.value, descriptor.value, stated), n + 6)
            else Failed(n + 6)
  }

  /** At most 256 attempts; only an entry that names another inode by now is tried again. */
  function Binding(at: History, when: Schedule, n: nat, attempt: nat, expected: Option<Identity>, strict: bool): Attempt
    requires attempt < MAX_ATTEMPTS
    decreases MAX_ATTEMPTS - attempt
  {
    var tried := AttemptToBind(at, when, n, expected, strict);
    if tried.Replaced?
      && attempt + 1 < MAX_ATTEMPTS then Binding(at, when, tried.next, attempt + 1, expected, strict) else tried
  }

  predicate Same(a: Stat, b: Stat) {
    a.ino == b.ino && a.size == b.size && a.mtime == b.mtime
  }

  /** `handle.read`, byte by byte while other processes go on; `patience` bounds how far it follows a growing file. */
  function ReadOn(at: History, when: Schedule, n: nat, ino: Ino, got: Bytes, patience: nat): Option<Bytes>
    decreases patience - |got|
  {
    var w := Sight(at, when, n + |got|);
    if |got| >= patience || ino !in w.files then None
    else if |got| >= |w.files[ino].content| then Some(got)
    else ReadOn(at, when, n, ino, got + [w.files[ino].content[|got|]], patience)
  }

  /** The checks after the read. */
  predicate Stable(initial: Stat, final: Stat, current: Stat, strict: bool) {
    var stillNamed := current.ino == final.ino;
    && (IdentityOf(final, strict) != IdentityOf(initial, strict) ==> !stillNamed && Same(final, initial))
    && (stillNamed ==> IdentityOf(current, strict) == IdentityOf(final, strict))
  }

  function Snapshot(at: History, when: Schedule, n: nat, expected: Option<Identity>, strict: bool,
                    patience: nat): Option<Reading> {
    var found := Binding(at, when, n, 0, expected, strict);
    if !found.Found? then None
    else
      var bound := found.bound;
      var raw := ReadOn(at, when, found.next, bound.ino, [], patience);
      if raw.None? then None
      else
        var last := found.next + |raw.value| + 1;
        var final := DescriptorStat(Sight(at, when, last), bound.ino);
        var current := EntryStat(Sight(at, when, last + 1));
        if final.Some? && final.value.size == |raw.value| && current.Some?
           && Stable(bound.initial, final.value, current.value, strict)
        then Some(Reading(raw.value, bound.ino, bound.stated, last))
        else None
  }

  // ------------------------------------------------------------ what it proves

  predicate HasByte(w: World, ino: Ino, p: nat, b: bv8) {
    ino in w.files && p < |w.files[ino].content| && w.files[ino].content[p] == b
  }

  /** Some look between `from` and `to` saw this byte there. */
  ghost predicate Seen(at: History, when: Schedule, ino: Ino, from: nat, to: nat, p: nat, b: bv8) {
    exists m: nat :: from <= m <= to && HasByte(at(when(m)), ino, p, b)
  }

  ghost predicate Gathered(at: History, when: Schedule, ino: Ino, from: nat, to: nat, raw: Bytes) {
    forall p: nat :: p < |raw| ==> Seen(at, when, ino, from, to, p, raw[p])
  }

  lemma {:induction false} ReadGathers(at: History, when: Schedule, n: nat, ino: Ino, got: Bytes, patience: nat)
    requires Gathered(at, when, ino, n, n + |got|, got)
    ensures var raw := ReadOn(at, when, n, ino, got, patience);
            raw.Some? ==> Gathered(at, when, ino, n, n + |raw.value|, raw.value)
    decreases patience - |got|
  {
    var w := at(when(n + |got|));
    if |got| < patience && ino in w.files && |got| < |w.files[ino].content| {
      var b := w.files[ino].content[|got|];
      assert HasByte(at(when(n + |got|)), ino, |got|, b);
      ReadGathers(at, when, n, ino, got + [b], patience);
    }
  }

  /** An inode with the size and mtime of `s`. */
  predicate Carries(w: World, s: Stat) {
    s.ino in w.files && |w.files[s.ino].content| == s.size && w.files[s.ino].mtime == s.mtime
  }

  /**
    What the first look of the last attempt, at `first`, and the accepted `fstat`, at `checked`, say.  Unless
    the entry named another inode in between, the descriptor still has the identity it was opened for.
   */
  ghost predicate BoundBy(at: History, when: Schedule, expected: Option<Identity>, strict: bool, b: Bound, first: nat,
                          checked: nat) {
    && first <= b.stated <= checked
    && b.stated == (if expected.Some? then first + 2 else first)
    && b.ino == b.initial.ino && b.ino in at(when(b.stated)).files && b.ino in at(when(checked)).files
    && b.initial == StatOf(b.ino, at(when(checked)).files[b.ino])
    && var stated := StatOf(b.ino, at(when(b.stated)).files[b.ino]);
       && (if expected.Some? then IdentityOf(stated, strict) == expected.value
           else at(when(first)).entry == Some(b.ino))
       && (IdentityOf(b.initial, strict) == IdentityOf(stated, strict)
           || (Carries(at(when(first)), b.initial) && at(when(first)).entry == Some(b.ino)
               && exists m: nat :: first <= m <= checked && NamesAnother(at(when(m)), b.ino)))
  }

  predicate NamesAnother(w: World, ino: Ino) {
    w.entry.Some? && w.entry.value != ino
  }

  lemma AttemptBinds(at: History, when: Schedule, n: nat, expected: Option<Identity>, strict: bool)
    ensures var tried := AttemptToBind(at, when, n, expected, strict);
            && tried.next > n
            && (tried.Found? ==> BoundBy(at, when, expected, strict, tried.bound, n, tried.next - 1))
  {
    var tried := AttemptToBind(at, when, n, expected, strict);
    if tried.Found? && tried.next == n + 6 {
      assert NamesAnother(at(when(n + 4)), tried.bound.ino);
    }
  }

  lemma {:induction false} BindingBinds(at: History, when: Schedule, n: nat, attempt: nat, expected: Option<Identity>,
                                        strict: bool)
    returns (first: nat)
    requires attempt < MAX_ATTEMPTS
    ensures var found := Binding(at, when, n, attempt, expected, strict);
            && found.next > n && first >= n
            && (found.Found?
                ==> first < found.next && BoundBy(at, when, expected, strict, found.bound, first, found.next - 1))
    decreases MAX_ATTEMPTS - attempt
  {
    hide BoundBy;
    hide AttemptToBind;
    first := n;
    AttemptBinds(at, when, n, expected, strict);
    var tried := AttemptToBind(at, when, n, expected, strict);
    if tried.Replaced? && attempt + 1 < MAX_ATTEMPTS {
      first := BindingBinds(at, when, tried.next, attempt + 1, expected, strict);
    }
  }

  lemma {:induction false} ReadFollows(at: History, when: Schedule, n: nat, ino: Ino, got: Bytes, raw: Bytes,
                                       patience: nat)
    requires got <= raw && |raw| < patience
    requires forall q :: |got| <= q < |raw| ==> HasByte(at(when(n + q)), ino, q, raw[q])
    requires ino in at(when(n + |raw|)).files && |at(when(n + |raw|)).files[ino].content| <= |raw|
    ensures ReadOn(at, when, n, ino, got, patience) == Some(raw)
    decreases |raw| - |got|
  {
    if |got| < |raw| {
      assert HasByte(at(when(n + |got|)), ino, |got|, raw[|got|]);
      ReadFollows(at, when, n, ino, got + [raw[|got|]], raw, patience);
    } else {
      assert got == raw;
    }
  }

  /** What the checks of a finished reading say, `first` being the first look of its last attempt. */
  ghost predicate Checked(at: History, when: Schedule, expected: Option<Identity>, strict: bool, r: Reading, first: nat,
                          checked: nat) {
    && first <= r.stated <= checked < r.last
    && r.ino in at(when(checked)).files
    && BoundBy(at, when, expected, strict, Bound(r.ino, StatOf(r.ino, at(when(checked)).files[r.ino]), r.stated), first,
               checked)
    && r.ino in at(when(r.last)).files && |at(when(r.last)).files[r.ino].content| == |r.raw|
    && Gathered(at, when, r.ino, checked, r.last, r.raw)
    && var current := EntryStat(at(when(r.last + 1)));
       && current.Some?
       && Stable(StatOf(r.ino, at(when(checked)).files[r.ino]), StatOf(r.ino, at(when(r.last)).files[r.ino]),
                 current.value, strict)
  }

  lemma SnapshotIsChecked(at: History, when: Schedule, n: nat, expected: Option<Identity>, strict: bool, patience: nat)
    returns (first: nat, checked: nat)
    ensures var s := Snapshot(at, when, n, expected, strict, patience);
            s.Some? ==> n <= first && Checked(at, when, expected, strict, s.value, first, checked)
  {
    hide Binding;
    hide ReadOn;
    hide Stable;
    hide BoundBy;
    hide Gathered;
    first := BindingBinds(at, when, n, 0, expected, strict);
    var found := Binding(at, when, n, 0, expected, strict);
    checked := found.next - 1;
    if found.Found? {
      var bound := found.bound;
      BoundParts(at, when, expected, strict, bound, first, checked);
      assert bound == Bound(bound.ino, StatOf(bound.ino, at(when(checked)).files[bound.ino]), bound.stated);
      NothingGathered(at, when, bound.ino, found.next);
      ReadGathers(at, when, found.next, bound.ino, [], patience);
      var raw := ReadOn(at, when, found.next, bound.ino, [], patience);
      if raw.Some? {
        GatheredWithin(at, when, bound.ino, found.next, found.next + |raw.value|, checked, found.next + |raw.value| + 1,
                       raw.value);
      }
    }
  }

  lemma NothingGathered(at: History, when: Schedule, ino: Ino, n: nat)
    ensures Gathered(at, when, ino, n, n, [])
  {
  }

  lemma BoundParts(at: History, when: Schedule, expected: Option<Identity>, strict: bool, b: Bound, first: nat,
                   checked: nat)
    requires BoundBy(at, when, expected, strict, b, first, checked)
    ensures first <= b.stated <= checked && b.ino in at(when(checked)).files
    ensures b.initial == StatOf(b.ino, at(when(checked)).files[b.ino])
  {
  }

  /** The look at which a byte of a checked reading was read. */
  lemma ReadAtSomeLook(at: History, when: Schedule, ino: Ino, from: nat, to: nat, raw: Bytes, p: nat) returns (m: nat)
    requires Gathered(at, when, ino, from, to, raw) && p < |raw|
    ensures from <= m <= to && HasByte(at(when(m)), ino, p, raw[p])
  {
    assert Seen(at, when, ino, from, to, p, raw[p]);
    m :| from <= m <= to && HasByte(at(when(m)), ino, p, raw[p]);
  }

  lemma GatheredWithin(at: History, when: Schedule, ino: Ino, from: nat, to: nat, from': nat, to': nat, raw: Bytes)
    requires from' <= from && to <= to' && Gathered(at, when, ino, from, to, raw)
    ensures Gathered(at, when, ino, from', to', raw)
  {
    forall p: nat | p < |raw|
      ensures Seen(at, when, ino, from', to', p, raw[p])
    {
      assert Seen(at, when, ino, from, to, p, raw[p]);
      var m: nat :| from <= m <= to && HasByte(at(when(m)), ino, p, raw[p]);
    }
  }

  /**
    Over a plausible history a reading is the one content its inode had at the look it stands for: that
    content was what the entry named at the `stat` of the last attempt, or had the expected identity.
   */
  lemma SnapshotIsWhole(at: History, when: Schedule, n: nat, expected: Option<Identity>, strict: bool, patience: nat)
    requires Plausible(at) && Forward(when)
    ensures var s := Snapshot(at, when, n, expected, strict, patience);
            s.Some? ==> Answers(at(when(s.value.stated)), s.value.ino, expected, strict, s.value.raw)
  {
    hide Snapshot;
    hide Plausible;
    hide Forward;
    hide Gathered;
    var first, checked := SnapshotIsChecked(at, when, n, expected, strict, patience);
    var s := Snapshot(at, when, n, expected, strict, patience);
    if s.Some? {
      var r := s.value;
      Later(when, first, r.stated);
      Later(when, r.stated, checked);
      var content := at(when(checked)).files[r.ino].content;
      forall p | 0 <= p < |r.raw|
        ensures p < |content| && r.raw[p] == content[p]
      {
        var m := ReadAtSomeLook(at, when, r.ino, checked, r.last, r.raw, p);
        Later(when, checked, m);
        Later(when, m, r.last);
        SameContent(at, r.ino, when(checked), when(m), when(r.last));
      }
      assert r.raw == content;
      var stated := at(when(r.stated)).files[r.ino];
      if SameStamp(stated, at(when(checked)).files[r.ino]) {
        SameContent(at, r.ino, when(r.stated), when(checked), when(checked));
      } else {
        SameContent(at, r.ino, when(first), when(r.stated), when(checked));
      }
    }
  }

  lemma SameContent(at: History, ino: Ino, i: nat, k: nat, j: nat)
    requires Plausible(at) && i <= k <= j && ino in at(i).files && ino in at(k).files && ino in at(j).files
    requires SameStamp(at(i).files[ino], at(j).files[ino])
    ensures at(k).files[ino].content == at(i).files[ino].content
    ensures at(j).files[ino].content == at(i).files[ino].content
  {
  }

  /** The inode has this content, and the entry names it or it has the identity that was asked for. */
  predicate Answers(w: World, ino: Ino, expected: Option<Identity>, strict: bool, content: Bytes) {
    && ino in w.files && w.files[ino].content == content
    && if expected.None? then w.entry == Some(ino) else IdentityOf(StatOf(ino, w.files[ino]), strict) == expected.value
  }

  // ------------------------------------------------ when a reading is wrong

  /** A reading without an expected identity is wrong if it is not what the entry named at the `stat` it stands for. */
  ghost predicate Wrong(at: History, when: Schedule, n: nat, strict: bool, patience: nat) {
    var s := Snapshot(at, when, n, None, strict, patience);
    s.Some? && !Answers(at(when(s.value.stated)), s.value.ino, None, strict, s.value.raw)
  }

  /**
    The entry names an inode at `i`, it has its size and mtime again at `j`, and a byte within
    that size was another at `k`.
   */
  ghost predicate Differs(at: History, i: nat, k: nat, j: nat, ino: Ino, p: nat) {
    && i <= k <= j
    && at(i).entry == Some(ino) && ino in at(i).files && ino in at(k).files && ino in at(j).files
    && SameStamp(at(i).files[ino], at(j).files[ino])
    && p < |at(i).files[ino].content| && p < |at(k).files[ino].content|
    && at(k).files[ino].content[p] != at(i).files[ino].content[p]
  }

  /** And at `c`, the last look, the entry names a file, and if it is this one it is unchanged since `j`. */
  ghost predicate Tears(at: History, i: nat, k: nat, j: nat, c: nat, ino: Ino, p: nat) {
    && Differs(at, i, k, j, ino, p) && j <= c
    && at(c).entry.Some? && at(c).entry.value in at(c).files
    && (at(c).entry.value == ino ==> SameStamp(at(j).files[ino], at(c).files[ino]))
  }

  /** And at `c` the entry names another file. */
  ghost predicate TearsReplaced(at: History, i: nat, k: nat, j: nat, c: nat, ino: Ino, p: nat) {
    Tears(at, i, k, j, c, ino, p) && at(c).entry.value != ino
  }

  lemma CheckedLoosely(at: History, when: Schedule, strict: bool, r: Reading, first: nat, checked: nat)
    requires Checked(at, when, None, strict, r, first, checked)
    ensures r.stated == first <= checked < r.last && at(when(first)).entry == Some(r.ino)
    ensures r.ino in at(when(first)).files && r.ino in at(when(r.last)).files
            && Gathered(at, when, r.ino, checked, r.last, r.raw)
    ensures |r.raw| == |at(when(first)).files[r.ino].content|
            && SameStamp(at(when(first)).files[r.ino], at(when(r.last)).files[r.ino])
    ensures var w := at(when(r.last + 1));
            && w.entry.Some? && w.entry.value in w.files
            && (w.entry.value == r.ino ==> SameStamp(at(when(r.last)).files[r.ino], w.files[r.ino]))
  {
    hide Gathered;
  }

  lemma WrongTears(at: History, when: Schedule, n: nat, strict: bool, patience: nat)
    returns (r: Reading, i: nat, k: nat, p: nat)
    requires Forward(when) && Wrong(at, when, n, strict, patience)
    ensures Snapshot(at, when, n, None, strict, patience) == Some(r)
    ensures Tears(at, i, k, when(r.last), when(r.last + 1), r.ino, p)
  {
    hide Snapshot;
    hide Forward;
    hide Gathered;
    hide Checked;
    var first, checked := SnapshotIsChecked(at, when, n, None, strict, patience);
    r := Snapshot(at, when, n, None, strict, patience).value;
    CheckedLoosely(at, when, strict, r, first, checked);
    var content := at(when(first)).files[r.ino].content;
    p :| p < |content| && r.raw[p] != content[p];
    var m := ReadAtSomeLook(at, when, r.ino, checked, r.last, r.raw, p);
    Later(when, first, m);
    Later(when, m, r.last);
    Later(when, r.last, r.last + 1);
    i, k := when(first), when(m);
  }

  /**
    The looks of a reader that meets such a byte: one at `i` after another, one at `k`, the rest at
    `j`, and the last at `c`.
   */
  function Meeting(i: nat, k: nat, j: nat, c: nat, p: nat, size: nat): Schedule {
    (n: nat) => if n < 4 + p then i else if n == 4 + p then k else if n <= 5 + size then j else c
  }

  /** Four looks at one moment bind a descriptor to the file of that moment. */
  lemma BindsAtOnce(at: History, when: Schedule, i: nat, ino: Ino, strict: bool)
    requires when(0) == when(1) == when(2) == when(3) == i && at(i).entry == Some(ino) && ino in at(i).files
    ensures AttemptToBind(at, when, 0, None, strict) == Found(Bound(ino, StatOf(ino, at(i).files[ino]), 0), 4)
  {
  }

  lemma MeetingHasBytes(at: History, i: nat, k: nat, j: nat, c: nat, ino: Ino, p: nat)
    requires ino in at(i).files && ino in at(k).files && ino in at(j).files
    requires |at(i).files[ino].content| == |at(j).files[ino].content|
    requires p < |at(i).files[ino].content| && p < |at(k).files[ino].content|
    ensures var size := |at(i).files[ino].content|;
            var when := Meeting(i, k, j, c, p, size);
            var raw := at(i).files[ino].content[..p] + [at(k).files[ino].content[p]]
              + at(j).files[ino].content[p + 1..];
            && |raw| == size && when(4 + size) == j
            && forall q :: 0 <= q < size ==> HasByte(at(when(4 + q)), ino, q, raw[q])
  {
  }

  lemma LooksAreRead(at: History, when: Schedule, strict: bool, ino: Ino, i: nat, j: nat, c: nat, raw: Bytes)
    requires when(0) == when(1) == when(2) == when(3) == i && at(i).entry == Some(ino) && ino in at(i).files
             && ino in at(j).files
    requires when(4 + |raw|) == when(5 + |raw|) == j && |at(j).files[ino].content| == |raw|
    requires when(6 + |raw|) == c && EntryStat(at(c)).Some?
    requires forall q :: 0 <= q < |raw| ==> HasByte(at(when(4 + q)), ino, q, raw[q])
    ensures Snapshot(at, when, 0, None, strict, |raw| + 1)
            == if Stable(StatOf(ino, at(i).files[ino]), StatOf(ino, at(j).files[ino]), EntryStat(at(c)).value, strict)
               then Some(Reading(raw, ino, 0, 5 + |raw|)) else None
  {
    hide Stable;
    hide AttemptToBind;
    hide EntryStat;
    BindsAtOnce(at, when, i, ino, strict);
    ReadFollows(at, when, 4, ino, [], raw, |raw| + 1);
    hide ReadOn;
    hide HasByte;
  }

  lemma MeetingIsRead(at: History, strict: bool, i: nat, k: nat, j: nat, c: nat, ino: Ino, p: nat)
    requires at(i).entry == Some(ino) && ino in at(i).files && ino in at(k).files && ino in at(j).files
    requires |at(i).files[ino].content| == |at(j).files[ino].content|
    requires p < |at(i).files[ino].content| && p < |at(k).files[ino].content| && EntryStat(at(c)).Some?
    ensures var size := |at(i).files[ino].content|;
            var raw := at(i).files[ino].content[..p] + [at(k).files[ino].content[p]]
              + at(j).files[ino].content[p + 1..];
            Snapshot(at, Meeting(i, k, j, c, p, size), 0, None, strict, size + 1)
            == if Stable(StatOf(ino, at(i).files[ino]), StatOf(ino, at(j).files[ino]), EntryStat(at(c)).value, strict)
               then Some(Reading(raw, ino, 0, 5 + size)) else None
  {
    hide Stable;
    hide Snapshot;
    hide EntryStat;
    var content := at(i).files[ino].content;
    var raw := content[..p] + [at(k).files[ino].content[p]] + at(j).files[ino].content[p + 1..];
    MeetingHasBytes(at, i, k, j, c, ino, p);
    LooksAreRead(at, Meeting(i, k, j, c, p, |content|), strict, ino, i, j, c, raw);
  }

  lemma TearIsWrong(at: History, strict: bool, i: nat, k: nat, j: nat, c: nat, ino: Ino, p: nat)
    requires if strict then TearsReplaced(at, i, k, j, c, ino, p) else Tears(at, i, k, j, c, ino, p)
    ensures exists when: Schedule, n: nat, patience: nat :: Forward(when) && Wrong(at, when, n, strict, patience)
  {
    hide Snapshot;
    hide Meeting;
    var content := at(i).files[ino].content;
    var when := Meeting(i, k, j, c, p, |content|);
    MeetingIsRead(at, strict, i, k, j, c, ino, p);
    assert (content[..p] + [at(k).files[ino].content[p]] + at(j).files[ino].content[p + 1..])[p] != content[p];
    MeetingStarts(i, k, j, c, p, |content|);
    assert Forward(when) && Wrong(at, when, 0, strict, |content| + 1);
  }

  lemma MeetingStarts(i: nat, k: nat, j: nat, c: nat, p: nat, size: nat)
    requires i <= k <= j <= c
    ensures Forward(Meeting(i, k, j, c, p, size)) && Meeting(i, k, j, c, p, size)(0) == i
  {
  }

  /**
    Whatever a history does, some reader returns a wrong reading from it if and only if an inode the entry names
    has another byte between two moments with the same size and mtime, and the entry's last look gives no sign of it.
   */
  lemma WrongReadingsExactly(at: History)
    ensures (exists when: Schedule, n: nat, patience: nat :: Forward(when) && Wrong(at, when, n, false, patience))
            <==> exists i: nat, k: nat, j: nat, c: nat, ino: Ino, p: nat :: Tears(at, i, k, j, c, ino, p)
  {
    hide Wrong;
    hide Tears;
    hide Forward;
    if when: Schedule, n: nat, patience: nat :| Forward(when) && Wrong(at, when, n, false, patience) {
      var r, i, k, p := WrongTears(at, when, n, false, patience);
    }
    if i: nat, k: nat, j: nat, c: nat, ino: Ino, p: nat :| Tears(at, i, k, j, c, ino, p) {
      TearIsWrong(at, false, i, k, j, c, ino, p);
    }
  }

  // ------------------------------------------------- what the ctime adds

  /** No ctime lies ahead of the clock, and no inode was named that is still unused. */
  ghost predicate Dated(d: Disk) {
    && (forall ino :: ino in d.world.files ==> ino < d.unused && d.world.files[ino].ctime < d.clock)
    && (d.world.entry.Some? ==> d.world.entry.value < d.unused)
  }

  lemma DoDates(d: Disk, a: Action, ino: Ino)
    requires Dated(d)
    ensures Dated(Do(d, a)) && Do(d, a).unused >= d.unused
    ensures ino in d.world.files ==>
              && ino in Do(d, a).world.files
              && (Do(d, a).world.files[ino] == d.world.files[ino]
                  || Do(d, a).world.files[ino].ctime > d.world.files[ino].ctime)
    ensures ino < d.unused && d.world.entry != Some(ino) ==> Do(d, a).world.entry != Some(ino)
  {
  }

  lemma {:induction false} RunDates(d: Disk, actions: nat -> Action, i: nat, j: nat, ino: Ino)
    requires Dated(d) && i <= j
    ensures Dated(After(d, actions, i)) && Dated(After(d, actions, j))
            && After(d, actions, j).unused >= After(d, actions, i).unused
    ensures ino in After(d, actions, i).world.files ==>
              && ino in After(d, actions, j).world.files
              && var (before, after) := (FileAt(d, actions, i, ino), FileAt(d, actions, j, ino));
                 after == before || after.ctime > before.ctime
    ensures ino < After(d, actions, i).unused && After(d, actions, i).world.entry != Some(ino)
            ==> After(d, actions, j).world.entry != Some(ino)
    decreases j
  {
    hide Do;
    hide Dated;
    if j > 0 {
      RunDates(d, actions, if i < j then i else j - 1, j - 1, ino);
      DoDates(After(d, actions, j - 1), actions(j - 1), ino);
    }
  }

  lemma DatedParts(d: Disk, ino: Ino)
    ensures Dated(d) && ino in d.world.files ==> ino < d.unused
  {
  }

  lemma CheckedStrictly(at: History, when: Schedule, expected: Option<Identity>, r: Reading, first: nat, checked: nat)
    requires Checked(at, when, expected, true, r, first, checked) && at(when(r.last + 1)).entry == Some(r.ino)
    ensures first <= r.stated <= checked < r.last && Gathered(at, when, r.ino, checked, r.last, r.raw)
    ensures r.ino in at(when(r.stated)).files && r.ino in at(when(r.last)).files
            && |at(when(r.last)).files[r.ino].content| == |r.raw|
    ensures if expected.None? then at(when(r.stated)).entry == Some(r.ino)
            else IdentityOf(StatOf(r.ino, at(when(r.stated)).files[r.ino]), true) == expected.value
    ensures || at(when(r.last)).files[r.ino].ctime == at(when(r.stated)).files[r.ino].ctime
            || (r.ino in at(when(first)).files
                && exists m: nat :: first <= m <= checked && NamesAnother(at(when(m)), r.ino))
  {
    hide Gathered;
  }

  lemma NamedMeansSameFile(d: Disk, actions: nat -> Action, at: History, when: Schedule, expected: Option<Identity>,
                           r: Reading,
                           first: nat, checked: nat)
    requires Dated(d) && Forward(when) && (forall m: nat :: at(m) == After(d, actions, m).world)
    requires Checked(at, when, expected, true, r, first, checked) && at(when(r.last + 1)).entry == Some(r.ino)
    ensures r.ino in After(d, actions, when(r.stated)).world.files
            && r.ino in After(d, actions, when(r.last)).world.files
    ensures FileAt(d, actions, when(r.last), r.ino) == FileAt(d, actions, when(r.stated), r.ino)
  {
    hide After;
    hide Dated;
    hide Forward;
    hide Checked;
    CheckedStrictly(at, when, expected, r, first, checked);
    Later(when, r.stated, r.last);
    if r.ino in at(when(first)).files {
      if m: nat :| first <= m <= checked && NamesAnother(at(when(m)), r.ino) {
        Later(when, first, m);
        Later(when, m, r.last + 1);
        RunDates(d, actions, when(first), when(m), r.ino);
        DatedParts(After(d, actions, when(first)), r.ino);
        RunDates(d, actions, when(m), when(r.last + 1), r.ino);
      }
    }
    RunDates(d, actions, when(r.stated), when(r.last), r.ino);
  }

  /**
    With the ctime in the identity, no write in place goes unnoticed while the entry still names the inode:
    whatever other processes do, such a reading is one whole content.
   */
  lemma NamedStrictReadingsAreWhole(d: Disk, actions: nat -> Action, at: History, when: Schedule, n: nat,
                                    expected: Option<Identity>,
                                    patience: nat)
    requires Dated(d) && Forward(when) && (forall m: nat :: at(m) == After(d, actions, m).world)
    ensures var s := Snapshot(at, when, n, expected, true, patience);
            s.Some? && at(when(s.value.last + 1)).entry == Some(s.value.ino)
            ==> Answers(at(when(s.value.stated)), s.value.ino, expected, true, s.value.raw)
  {
    hide Snapshot;
    hide After;
    hide Dated;
    hide Forward;
    hide Checked;
    hide Gathered;
    var first, checked := SnapshotIsChecked(at, when, n, expected, true, patience);
    var s := Snapshot(at, when, n, expected, true, patience);
    if s.Some? && at(when(s.value.last + 1)).entry == Some(s.value.ino) {
      var r := s.value;
      CheckedStrictly(at, when, expected, r, first, checked);
      NamedMeansSameFile(d, actions, at, when, expected, r, first, checked);
      var content := at(when(r.stated)).files[r.ino].content;
      forall p | 0 <= p < |r.raw|
        ensures p < |content| && r.raw[p] == content[p]
      {
        var m := ReadAtSomeLook(at, when, r.ino, checked, r.last, r.raw, p);
        Later(when, r.stated, m);
        Later(when, m, r.last);
        RunDates(d, actions, when(r.stated), when(m), r.ino);
        RunDates(d, actions, when(m), when(r.last), r.ino);
      }
      assert r.raw == content;
    }
  }

  /**
    So with the ctime, whatever other processes do, some reader returns a wrong reading if and only if an
    inode the entry names has another byte between two moments with the same size and mtime, and was replaced
    by another file after that.
   */
  lemma WrongStrictReadingsExactly(d: Disk, actions: nat -> Action, at: History)
    requires Dated(d) && forall m: nat :: at(m) == After(d, actions, m).world
    ensures (exists when: Schedule, n: nat, patience: nat :: Forward(when) && Wrong(at, when, n, true, patience))
            <==> exists i: nat, k: nat, j: nat, c: nat, ino: Ino, p: nat :: TearsReplaced(at, i, k, j, c, ino, p)
  {
    hide Wrong;
    hide TearsReplaced;
    hide Forward;
    hide After;
    hide Dated;
    if when: Schedule, n: nat, patience: nat :| Forward(when) && Wrong(at, when, n, true, patience) {
      var r, i, k, p := WrongTears(at, when, n, true, patience);
      NamedStrictReadingsAreWhole(d, actions, at, when, n, None, patience);
      ReplacedWhenWrong(at, when, n, patience, r, i, k, p);
    }
    if i: nat, k: nat, j: nat, c: nat, ino: Ino, p: nat :| TearsReplaced(at, i, k, j, c, ino, p) {
      TearIsWrong(at, true, i, k, j, c, ino, p);
    }
  }

  lemma ReplacedWhenWrong(at: History, when: Schedule, n: nat, patience: nat, r: Reading, i: nat, k: nat, p: nat)
    requires Wrong(at, when, n, true, patience) && Snapshot(at, when, n, None, true, patience) == Some(r)
    requires Tears(at, i, k, when(r.last), when(r.last + 1), r.ino, p)
    requires at(when(r.last + 1)).entry == Some(r.ino) ==> Answers(at(when(r.stated)), r.ino, None, true, r.raw)
    ensures TearsReplaced(at, i, k, when(r.last), when(r.last + 1), r.ino, p)
  {
    hide Snapshot;
    hide Tears;
    TearsNames(at, i, k, when(r.last), when(r.last + 1), r.ino, p);
  }

  lemma TearsNames(at: History, i: nat, k: nat, j: nat, c: nat, ino: Ino, p: nat)
    requires Tears(at, i, k, j, c, ino, p)
    ensures at(c).entry.Some?
  {
  }

  /** Two ones, two twos, two ones again under the first mtime; then another file in its place. */
  function Returning(): (Disk, nat -> Action) {
    (Disk(World(Some(0), map[0 := File([1, 1], 5, 0)]), 1, 1, map[0 := {(2, 5)}]),
     (n: nat) => if n == 0 then WriteInPlace(0, [2, 2], 6) else if n == 1 then WriteInPlace(0, [1, 1], 5)
       else Replace([9], 7))
  }

  lemma ReturningWorlds()
    ensures var (d, actions) := Returning();
            && Recorded(d) && Dated(d) && !Traceable(After(d, actions, 1), actions(1))
            && After(d, actions, 0).world == World(Some(0), map[0 := File([1, 1], 5, 0)])
            && After(d, actions, 1).world == World(Some(0), map[0 := File([2, 2], 6, 1)])
            && After(d, actions, 2).world == World(Some(0), map[0 := File([1, 1], 5, 2)])
            && After(d, actions, 3).world == World(Some(1), map[0 := File([1, 1], 5, 3), 1 := File([9], 7, 3)])
  {
    var (d, actions) := Returning();
    var one, two := Do(d, actions(0)), Do(Do(d, actions(0)), actions(1));
    assert After(d, actions, 1) == one;
    assert After(d, actions, 2) == two;
    assert After(d, actions, 3) == Do(two, actions(2));
  }

  /**
    That every write changes size or mtime is not enough, for the stamp can come back: then a reading can mix both
    contents.  With the ctime it is refused, but only until the entry is replaced.
   */
  lemma ReturningStampsCanTear()
    ensures var (d, actions) := Returning();
            var at: History := (n: nat) => After(d, actions, n).world;
            && Recorded(d) && Dated(d)
            && at(0).files.Keys == at(1).files.Keys == at(2).files.Keys == {0}
            && !SameStamp(at(0).files[0], at(1).files[0]) && !SameStamp(at(1).files[0], at(2).files[0])
            && SameStamp(at(0).files[0], at(2).files[0]) && !Traceable(After(d, actions, 1), actions(1))
            && Snapshot(at, Meeting(0, 1, 2, 2, 1, 2), 0, None, false, 3) == Some(Reading([1, 2], 0, 0, 7))
            && Snapshot(at, Meeting(0, 1, 2, 2, 1, 2), 0, None, true, 3) == None
            && Snapshot(at, Meeting(0, 1, 2, 3, 1, 2), 0, None, true, 3) == Some(Reading([1, 2], 0, 0, 7))
  {
    hide Snapshot;
    hide Meeting;
    hide After;
    hide Recorded;
    hide Dated;
    var (d, actions) := Returning();
    var at: History := (n: nat) => After(d, actions, n).world;
    ReturningWorlds();
    MixtureIsRead(at, false, 2);
    MixtureIsRead(at, true, 2);
    MixtureIsRead(at, true, 3);
  }

  /** A one of the first content, a two of the second, and the third content until the last look at `c`. */
  lemma MixtureIsRead(at: History, strict: bool, c: nat)
    requires at(0) == World(Some(0), map[0 := File([1, 1], 5, 0)])
             && at(1) == World(Some(0), map[0 := File([2, 2], 6, 1)])
    requires at(2) == World(Some(0), map[0 := File([1, 1], 5, 2)])
    requires c == 2 || (c == 3 && at(3) == World(Some(1), map[0 := File([1, 1], 5, 3), 1 := File([9], 7, 3)]))
    ensures Snapshot(at, Meeting(0, 1, 2, c, 1, 2), 0, None, strict, 3)
            == if strict && c == 2 then None else Some(Reading([1, 2], 0, 0, 7))
  {
    hide Snapshot;
    hide Meeting;
    MeetingIsRead(at, strict, 0, 1, 2, c, 0, 1);
    var raw: Bytes := [1, 1][..1] + [2] + [1, 1][2..];
    assert raw == [1, 2];
  }

  // ------------------------------------------------------- the reader's code

  /** The directory as a reader sees it, look after look. */
  class Directory {
    const at: History
    const when: Schedule
    const patience: nat
    var looks: nat

    constructor (at: History, when: Schedule, patience: nat)
      ensures this.at == at && this.when == when && this.patience == patience && looks == 0
    {
      this.at, this.when, this.patience, looks := at, when, patience, 0;
    }

    method Look() returns (w: World)
      modifies this
      ensures looks == old(looks) + 1 && w == Sight(at, when, old(looks))
    {
      w := Sight(at, when, looks);
      looks := looks + 1;
    }

    method StatEntry() returns (s: Option<Stat>)
      modifies this
      ensures looks == old(looks) + 1 && s == EntryStat(Sight(at, when, old(looks)))
    {
      var w := Look();
      if w.entry.None? || w.entry.value !in w.files {
        return None;
      }
      return Some(StatOf(w.entry.value, w.files[w.entry.value]));
    }

    method StatDescriptor(ino: Ino) returns (s: Option<Stat>)
      modifies this
      ensures looks == old(looks) + 1 && s == DescriptorStat(Sight(at, when, old(looks)), ino)
    {
      var w := Look();
      return if ino in w.files then Some(StatOf(ino, w.files[ino])) else None;
    }

    /** `_open_regular_file_at`: open whatever the entry names, if that has the identity. */
    method Open(identity: Identity, strict: bool) returns (handle: Option<Ino>)
      modifies this
      ensures looks == old(looks) + (if EntryStat(Sight(at, when, old(looks))).None? then 1 else 2)
      ensures handle == Opened(at, when, old(looks), identity, strict)
    {
      hide Sight;
      var entry := StatEntry();
      if entry.None? {
        return None;
      }
      var s := StatDescriptor(entry.value.ino);
      return if s.Some? && IdentityOf(s.value, strict) == identity then Some(entry.value.ino) else None;
    }

    method ReadAll(ino: Ino) returns (raw: Option<Bytes>)
      modifies this
      ensures raw == ReadOn(at, when, old(looks), ino, [], patience)
      ensures raw.Some? ==> looks == old(looks) + |raw.value| + 1
    {
      hide Sight;
      var bytes: Bytes := [];
      while |bytes| < patience
        invariant looks == old(looks) + |bytes|
        invariant ReadOn(at, when, old(looks), ino, [], patience) == ReadOn(at, when, old(looks), ino, bytes, patience)
        decreases patience - |bytes|
      {
        var w := Look();
        if ino !in w.files {
          return None;
        }
        if |bytes| >= |w.files[ino].content| {
          return Some(bytes);
        }
        bytes := bytes + [w.files[ino].content[|bytes|]];
      }
      raw := None;
    }
  }

  /** One pass of the loop that binds a descriptor to the entry. */
  method TryToBind(directory: Directory, expected: Option<Identity>, strict: bool) returns (tried: Attempt)
    modifies directory
    ensures tried == AttemptToBind(directory.at, directory.when, old(directory.looks), expected, strict)
    ensures directory.looks == tried.next
  {
    hide Sight;
    hide EntryStat;
    hide DescriptorStat;
    var stated := directory.looks;
    var before := directory.StatEntry();
    if before.None? {
      return Failed(directory.looks);
    }
    var identity := if expected.Some? then expected.value else IdentityOf(before.value, strict);
    var handle := directory.Open(identity, strict);
    if handle.None? {
      var current := directory.StatEntry();
      return if current.Some?
             && current.value.ino != before.value.ino then Replaced(directory.looks) else Failed(directory.looks);
    }
    if expected.Some? {
      stated := directory.looks - 1;
    }
    var initial := directory.StatDescriptor(handle.value);
    if initial.None? {
      return Failed(directory.looks);
    }
    if IdentityOf(initial.value, strict) == identity {
      return Found(Bound(handle.value, initial.value, stated), directory.looks);
    }
    var current := directory.StatEntry();
    if current.None? {
      return Failed(directory.looks);
    }
    var descriptor := directory.StatDescriptor(handle.value);
    if descriptor.Some? && current.value.ino != descriptor.value.ino && Same(descriptor.value, before.value) {
      return Found(Bound(handle.value, descriptor.value, stated), directory.looks);
    }
    return Failed(directory.looks);
  }

  /** The retry loop. */
  method Bind(directory: Directory, expected: Option<Identity>, strict: bool) returns (bound: Option<Bound>)
    modifies directory
    ensures var found := Binding(directory.at, directory.when, old(directory.looks), 0, expected, strict);
            && bound == (if found.Found? then Some(found.bound) else None)
            && directory.looks == found.next
  {
    hide AttemptToBind;
    var attempt := 0;
    while true
      invariant attempt < MAX_ATTEMPTS
             && Binding(directory.at, directory.when, old(directory.looks), 0, expected, strict)
             == Binding(directory.at, directory.when, directory.looks, attempt, expected, strict)
      decreases MAX_ATTEMPTS - attempt
    {
      var tried := TryToBind(directory, expected, strict);
      if tried.Replaced? && attempt + 1 < MAX_ATTEMPTS {
        attempt := attempt + 1;
        continue;
      }
      return if tried.Found? then Some(tried.bound) else None;
    }
  }

  /**
    `_read_regular_bytes_allowing_atomic_replace`: over every history and every schedule it returns the bytes of
    `Snapshot`, or fails as that does.
   */
  method ReadSnapshot(directory: Directory, expected: Option<Identity>, strict: bool) returns (raw: Option<Bytes>)
    modifies directory
    ensures var s := Snapshot(directory.at, directory.when, old(directory.looks), expected, strict, directory.patience);
            raw == if s.Some? then Some(s.value.raw) else None
  {
    hide Binding;
    hide ReadOn;
    hide Sight;
    hide EntryStat;
    hide DescriptorStat;
    var bound := Bind(directory, expected, strict);
    if bound.None? {
      return None;
    }
    var bytes := directory.ReadAll(bound.value.ino);
    if bytes.None? {
      return None;
    }
    var final := directory.StatDescriptor(bound.value.ino);
    if final.None? || final.value.size != |bytes.value| {
      return None;
    }
    var current := directory.StatEntry();
    if current.None? {
      return None;
    }
    var stillNamed := current.value.ino == final.value.ino;
    var changed := IdentityOf(final.value, strict) != IdentityOf(bound.value.initial, strict);
    if changed && !(!stillNamed && Same(final.value, bound.value.initial)) {
      return None;
    }
    if stillNamed && IdentityOf(current.value, strict) != IdentityOf(final.value, strict) {
      return None;
    }
    raw := bytes;
  }
}
