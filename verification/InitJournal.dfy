/**
  The journal `kigumi init` keeps of what it changes in a project, and its rollback (kigumi/cli.py).
  A node's identity stands for its device and inode: a write replaces a file by a new one.
 */
module InitJournal {
  import opened Wrappers

  type Path = seq<string>

  datatype Node = Dir(id: nat) | File(id: nat, text: string, mode: nat)

  type Tree = map<Path, Node>

  datatype Journal = Journal(
    tree: Tree,
    unused: nat,
    directories: seq<(Path, nat)>,
    files: seq<(Path, nat)>,
    originals: map<Path, (string, nat)>)

  /**
    How far a step gets: to its end; not at all, because it raises first; as far as making the directories down to
    a depth, before the write itself fails; or to the change itself, but not to journaling what it made.
   */
  datatype Luck = Fine | Early | Midway(depth: nat) | Late

  /** `Make` is one component of `ensure_directory`; `mode` is what a fresh file gets. */
  datatype Step = Make(path: Path, luck: Luck) | Write(path: Path, text: string, mode: nat, luck: Luck)

  /** The journal after a step, and whether the step raised. */
  datatype Outcome = Done(journal: Journal) | Raised(journal: Journal)

  function Parent(p: Path): Path
    requires p != []
  {
    p[..|p| - 1]
  }

  predicate IsDir(t: Tree, p: Path) {
    p in t && t[p].Dir?
  }

  predicate IsFile(t: Tree, p: Path) {
    p in t && t[p].File?
  }

  /** The root is a directory and so is the parent of everything else. */
  ghost predicate Wellformed(t: Tree) {
    && IsDir(t, [])
    && forall p :: p in t && p != [] ==> IsDir(t, Parent(p))
  }

  /** The missing directories above a file, made outside the journal by the atomic writer. */
  function WithAncestors(t: Tree, p: Path, id: nat): (t': Tree)
    ensures forall q :: q in t ==> q in t' && t'[q] == t[q]
    ensures forall q :: q in t' && q !in t ==> t'[q] == Dir(id)
    decreases |p|
  {
    if p in t || p == [] then t else WithAncestors(t, Parent(p), id)[p := Dir(id)]
  }

  /** What reading a text file makes of its line ends: `read_text` opens it with universal newlines. */
  function UniversalNewlines(text: string): (read: string)
    ensures '\r' !in read
    ensures |read| <= |text|
    ensures read == text <==> '\r' !in text
  {
    if text == [] then text
    else if text[0] != '\r' then [text[0]] + UniversalNewlines(text[1..])
    else ['\n'] + UniversalNewlines(if |text| > 1 && text[1] == '\n' then text[2..] else text[1..])
  }

  /** The directory a failing write still reached. */
  function Reached(p: Path, depth: nat): Path
    requires p != []
  {
    p[..if depth < |p| then depth else |p| - 1]
  }

  /** A place where the source raises before it changes anything. */
  predicate Barred(t: Tree, step: Step) {
    var p := step.path;
    match step
    case Make(_, _) => !IsDir(t, p) && (p in t || p == [] || !IsDir(t, Parent(p)))
    case Write(_, _, _, _) => p == [] || IsDir(t, p) || exists i :: 0 <= i < |p| && IsFile(t, p[..i])
  }

  function DoMake(j: Journal, p: Path, luck: Luck): Outcome {
    if IsDir(j.tree, p) then Done(j)
    else
      var made := j.(tree := j.tree[p := Dir(j.unused)], unused := j.unused + 1);
      match luck
      case Fine => Done(made.(directories := j.directories + [(p, j.unused)]))
      case Late => Raised(made)
      case _ => Raised(j)
  }

  /** A file that is there: its text as read and its mode are journaled before it is written. */
  function DoRewrite(j: Journal, p: Path, text: string, mode: nat, luck: Luck): Outcome
    requires IsFile(j.tree, p)
  {
    var original := (UniversalNewlines(j.tree[p].text), j.tree[p].mode);
    var journaled := j.(originals := if p in j.originals then j.originals else j.originals[p := original]);
    var written := journaled.(tree := j.tree[p := File(j.unused, text, mode)], unused := j.unused + 1);
    if luck.Fine? then Done(written) else if luck.Late? then Raised(written) else Raised(journaled)
  }

  function DoCreate(j: Journal, p: Path, text: string, mode: nat, luck: Luck): Outcome
    requires p != []
  {
    var written := j.(tree := WithAncestors(j.tree, Parent(p), j.unused)[p := File(j.unused + 1, text, mode)],
                      unused := j.unused + 2);
    match luck
    case Fine => Done(written.(files := j.files + [(p, j.unused + 1)]))
    case Late => Raised(written)
    case Midway(depth) => Raised(j.(tree := WithAncestors(j.tree, Reached(p, depth), j.unused), unused := j.unused + 1))
    case Early => Raised(j)
  }

  function Do(j: Journal, step: Step): Outcome {
    if step.luck.Early? || Barred(j.tree, step) then Raised(j)
    else
      match step
      case Make(p, luck) => DoMake(j, p, luck)
      case Write(p, text, mode, luck) =>
        if IsFile(j.tree, p) then DoRewrite(j, p, text, mode, luck) else DoCreate(j, p, text, mode, luck)
  }

  /** Step after step up to the first that raises, with whatever that one still did. */
  function DoAll(j: Journal, steps: seq<Step>): Journal
    decreases |steps|
  {
    if steps == [] then j
    else
      var next := Do(j, steps[0]);
      if next.Raised? then next.journal else DoAll(next.journal, steps[1..])
  }

  function Begin(t: Tree, unused: nat): Journal {
    Journal(t, unused, [], [], map[])
  }

  // ---------------------------------------------------------------- rollback

  /** Created files go, last first, unless something else took their place. */
  function Unlinked(t: Tree, files: seq<(Path, nat)>): Tree {
    if files == [] then t
    else
      var (p, id) := files[|files| - 1];
      Unlinked(if IsFile(t, p) && t[p].id == id then t - {p} else t, files[..|files| - 1])
  }

  /** Rewritten files get their text and mode back. */
  function Restored(t: Tree, originals: map<Path, (string, nat)>, id: nat): Tree {
    map p | p in t.Keys + originals.Keys ::
      if p in originals && !IsDir(t, p) then File(id, originals[p].0, originals[p].1) else t[p]
  }

  predicate Empty(t: Tree, p: Path) {
    forall q :: q in t && q != [] ==> Parent(q) != p
  }

  /** Created directories go, last first, if they are still the same and empty. */
  function Removed(t: Tree, directories: seq<(Path, nat)>): Tree {
    if directories == [] then t
    else
      var (p, id) := directories[|directories| - 1];
      Removed(if IsDir(t, p) && t[p].id == id && Empty(t, p) then t - {p} else t, directories[..|directories| - 1])
  }

  function RolledBack(j: Journal): Tree {
    Removed(Restored(Unlinked(j.tree, j.files), j.originals, j.unused), j.directories)
  }

  /** The same tree, contents and modes; restored files have new identities. */
  predicate Same(a: Tree, b: Tree) {
    && a.Keys == b.Keys
    && forall p :: p in a ==>
         match a[p]
         case Dir(_) => b[p] == a[p]
         case File(_, text, mode) => b[p].File? && b[p].text == text && b[p].mode == mode
  }

  // --------------------------------------------------------------- invariant

  predicate Lists(entries: seq<(Path, nat)>, p: Path) {
    exists i :: 0 <= i < |entries| && entries[i].0 == p
  }

  type Entries = seq<(Path, nat)>
  type Originals = map<Path, (string, nat)>

  /** Everything that was there before is there still, or its text and mode are known. */
  ghost predicate KeepsOriginal(t: Tree, now: Tree, originals: Originals) {
    && (forall p :: p in t ==> p in now && (p !in originals ==> now[p] == t[p]))
    && (forall p :: p in originals ==> IsFile(t, p) && IsFile(now, p) && originals[p] == (t[p].text, t[p].mode))
  }

  /** Whatever is new was journaled. */
  ghost predicate NewIsListed(t: Tree, now: Tree, directories: Entries, files: Entries) {
    forall p :: p in now && p !in t ==> Lists(directories, p) || Lists(files, p)
  }

  /** Journaled files are new, and still what was made. */
  ghost predicate FilesAreMade(t: Tree, now: Tree, files: Entries) {
    forall i :: 0 <= i < |files| ==> files[i].0 !in t && IsFile(now, files[i].0) && now[files[i].0].id == files[i].1
  }

  /** Journaled directories are new, still what was made, each once, and after its parent. */
  ghost predicate DirectoriesAreMade(t: Tree, now: Tree, directories: Entries) {
    && (forall i :: 0 <= i < |directories| ==> DirectoryIsMade(t, now, directories, i))
    && (forall i, k :: 0 <= i < k < |directories| ==> directories[i].0 != directories[k].0)
  }

  ghost predicate DirectoryIsMade(t: Tree, now: Tree, directories: Entries, i: nat)
    requires i < |directories|
  {
    var p := directories[i].0;
    && p !in t && p != [] && p in now && now[p] == Dir(directories[i].1)
    && (Parent(p) in t || exists k :: 0 <= k < i && directories[k].0 == Parent(p))
  }

  ghost predicate Kept(t: Tree, j: Journal) {
    && Wellformed(t) && Wellformed(j.tree)
    && KeepsOriginal(t, j.tree, j.originals)
    && NewIsListed(t, j.tree, j.directories, j.files)
    && FilesAreMade(t, j.tree, j.files)
    && DirectoriesAreMade(t, j.tree, j.directories)
  }

  /**
    What keeps a step within reach of the rollback: what is made gets journaled, a new file's parent is there, and a
    file that is written again was not created by this journal and, when first journaled, had no carriage return.
   */
  predicate Reversible(j: Journal, step: Step) {
    if step.luck.Early? || Barred(j.tree, step) then true
    else
      match step
      case Make(p, luck) => IsDir(j.tree, p) || !luck.Late?
      case Write(p, _, _, luck) =>
        if IsFile(j.tree, p) then !Lists(j.files, p) && (p in j.originals || '\r' !in j.tree[p].text)
        else
          match luck
          case Fine => IsDir(j.tree, Parent(p))
          case Midway(depth) => IsDir(j.tree, Reached(p, depth))
          case _ => false
  }

  predicate AllReversible(j: Journal, steps: seq<Step>)
    decreases |steps|
  {
    if steps == [] then true
    else Reversible(j, steps[0]) && (Do(j, steps[0]).Done? ==> AllReversible(Do(j, steps[0]).journal, steps[1..]))
  }

  lemma ListsMore(entries: seq<(Path, nat)>, e: (Path, nat))
    ensures forall q :: Lists(entries + [e], q) <==> Lists(entries, q) || q == e.0
  {
    forall q
      ensures Lists(entries + [e], q) <==> Lists(entries, q) || q == e.0
    {
      if Lists(entries, q) {
        var i :| 0 <= i < |entries| && entries[i].0 == q;
        assert (entries + [e])[i].0 == q;
      }
      assert (entries + [e])[|entries|] == e;
    }
  }

  lemma WellformedAfter(t: Tree, p: Path, node: Node)
    requires Wellformed(t) && p != [] && IsDir(t, Parent(p)) && (p in t ==> t[p].File? && node.File?)
    ensures Wellformed(t[p := node])
  {
  }

  lemma DirectoriesStay(t: Tree, now: Tree, directories: Entries, p: Path, node: Node)
    requires DirectoriesAreMade(t, now, directories) && !IsDir(now, p)
    ensures DirectoriesAreMade(t, now[p := node], directories)
  {
    var next := now[p := node];
    forall i | 0 <= i < |directories|
      ensures DirectoryIsMade(t, next, directories, i)
    {
      assert DirectoryIsMade(t, now, directories, i);
    }
  }

  lemma OneMoreDirectory(t: Tree, now: Tree, directories: Entries, p: Path, id: nat)
    requires DirectoriesAreMade(t, now, directories) && p !in now && p !in t && p != []
    requires Parent(p) in t || Lists(directories, Parent(p))
    ensures DirectoriesAreMade(t, now[p := Dir(id)], directories + [(p, id)])
  {
    var more := directories + [(p, id)];
    var next := now[p := Dir(id)];
    forall i | 0 <= i < |more|
      ensures DirectoryIsMade(t, next, more, i)
    {
      if i < |directories| {
        assert DirectoryIsMade(t, now, directories, i) && more[i] == directories[i];
        if Parent(directories[i].0) !in t {
          var k :| 0 <= k < i && directories[k].0 == Parent(directories[i].0);
          assert more[k] == directories[k];
        }
      } else if Parent(p) !in t {
        var k :| 0 <= k < |directories| && directories[k].0 == Parent(p);
        assert more[k] == directories[k];
      }
    }
    assert forall i :: 0 <= i < |directories| ==> more[i] == directories[i] && DirectoryIsMade(t, now, directories, i);
  }

  lemma NewNodeKeepsOriginal(t: Tree, now: Tree, originals: Originals, p: Path, node: Node)
    requires KeepsOriginal(t, now, originals) && p !in now
    ensures KeepsOriginal(t, now[p := node], originals)
    ensures p !in t
  {
  }

  lemma RewritingKeepsOriginal(t: Tree, now: Tree, originals: Originals, p: Path, node: Node)
    requires KeepsOriginal(t, now, originals) && p in t && IsFile(now, p) && node.File?
    ensures KeepsOriginal(t, now[p := node],
                          if p in originals then originals else originals[p := (now[p].text, now[p].mode)])
    ensures KeepsOriginal(t, now, if p in originals then originals else originals[p := (now[p].text, now[p].mode)])
  {
  }

  lemma OneMoreIsListed(t: Tree, now: Tree, directories: Entries, files: Entries, p: Path, id: nat, node: Node)
    requires NewIsListed(t, now, directories, files)
    ensures NewIsListed(t, now[p := node], directories + [(p, id)], files)
    ensures NewIsListed(t, now[p := node], directories, files + [(p, id)])
    ensures p in now ==> NewIsListed(t, now[p := node], directories, files)
  {
    ListsMore(directories, (p, id));
    ListsMore(files, (p, id));
    hide Lists;
  }

  lemma FilesStay(t: Tree, now: Tree, files: Entries, p: Path, node: Node)
    requires FilesAreMade(t, now, files) && !Lists(files, p)
    ensures FilesAreMade(t, now[p := node], files)
  {
    forall i | 0 <= i < |files|
      ensures files[i].0 != p
    {
    }
  }

  lemma OneMoreFile(t: Tree, now: Tree, files: Entries, p: Path, id: nat, text: string, mode: nat)
    requires FilesAreMade(t, now, files) && p !in now && p !in t
    ensures FilesAreMade(t, now[p := File(id, text, mode)], files + [(p, id)])
  {
  }

  lemma NotListed(t: Tree, now: Tree, files: Entries, p: Path)
    requires FilesAreMade(t, now, files) && p !in now
    ensures !Lists(files, p)
  {
  }

  /** A directory was made at a free place under a directory. */
  lemma MadeDirectoryKeeps(t: Tree, j: Journal, p: Path)
    requires Kept(t, j) && p !in j.tree && p != [] && IsDir(j.tree, Parent(p))
    ensures Kept(t, DoMake(j, p, Fine).journal)
  {
    hide Wellformed;
    hide KeepsOriginal;
    hide NewIsListed;
    hide FilesAreMade;
    hide DirectoriesAreMade;
    hide Lists;
    var node := Dir(j.unused);
    WellformedAfter(j.tree, p, node);
    NewNodeKeepsOriginal(t, j.tree, j.originals, p, node);
    OneMoreIsListed(t, j.tree, j.directories, j.files, p, j.unused, node);
    NotListed(t, j.tree, j.files, p);
    FilesStay(t, j.tree, j.files, p, node);
    ParentIsListed(t, j, p);
    OneMoreDirectory(t, j.tree, j.directories, p, j.unused);
  }

  lemma ParentIsListed(t: Tree, j: Journal, p: Path)
    requires Kept(t, j) && p != [] && IsDir(j.tree, Parent(p))
    ensures Parent(p) in t || Lists(j.directories, Parent(p))
  {
  }

  /** A file that was there was journaled, and replaced or not. */
  lemma RewrittenFileKeeps(t: Tree, j: Journal, p: Path, text: string, mode: nat, luck: Luck)
    requires Kept(t, j) && IsFile(j.tree, p) && !Lists(j.files, p) && (p in j.originals || '\r' !in j.tree[p].text)
    ensures Kept(t, DoRewrite(j, p, text, mode, luck).journal)
  {
    hide Wellformed;
    hide KeepsOriginal;
    hide NewIsListed;
    hide FilesAreMade;
    hide DirectoriesAreMade;
    hide Lists;
    hide UniversalNewlines;
    var node := File(j.unused, text, mode);
    WrittenWasThere(t, j, p);
    WellformedAfter(j.tree, p, node);
    RewritingKeepsOriginal(t, j.tree, j.originals, p, node);
    OneMoreIsListed(t, j.tree, j.directories, j.files, p, 0, node);
    FilesStay(t, j.tree, j.files, p, node);
    DirectoriesStay(t, j.tree, j.directories, p, node);
  }

  lemma WrittenWasThere(t: Tree, j: Journal, p: Path)
    requires Kept(t, j) && IsFile(j.tree, p) && !Lists(j.files, p)
    ensures p in t && p != [] && IsDir(j.tree, Parent(p))
  {
    hide Wellformed;
    hide KeepsOriginal;
    hide FilesAreMade;
    assert p in t by {
      FileIsNoDirectory(t, j.tree, j.directories, p);
      assert p !in t ==> Lists(j.directories, p) || Lists(j.files, p);
    }
    FilesHaveParents(j.tree, p);
  }

  lemma FileIsNoDirectory(t: Tree, now: Tree, directories: Entries, p: Path)
    requires DirectoriesAreMade(t, now, directories) && IsFile(now, p)
    ensures !Lists(directories, p)
  {
    forall i | 0 <= i < |directories|
      ensures directories[i].0 != p
    {
      assert DirectoryIsMade(t, now, directories, i);
    }
  }

  lemma FilesHaveParents(t: Tree, p: Path)
    requires Wellformed(t) && IsFile(t, p)
    ensures p != [] && IsDir(t, Parent(p))
  {
  }

  /** A file was made at a free place under a directory. */
  lemma NewFileKeeps(t: Tree, j: Journal, p: Path, text: string, mode: nat)
    requires Kept(t, j) && p != [] && p !in j.tree && IsDir(j.tree, Parent(p))
    ensures Kept(t, DoCreate(j, p, text, mode, Fine).journal)
  {
    hide Wellformed;
    hide KeepsOriginal;
    hide NewIsListed;
    hide FilesAreMade;
    hide DirectoriesAreMade;
    hide Lists;
    var node := File(j.unused + 1, text, mode);
    assert WithAncestors(j.tree, Parent(p), j.unused) == j.tree;
    WellformedAfter(j.tree, p, node);
    NewNodeKeepsOriginal(t, j.tree, j.originals, p, node);
    OneMoreIsListed(t, j.tree, j.directories, j.files, p, j.unused + 1, node);
    OneMoreFile(t, j.tree, j.files, p, j.unused + 1, text, mode);
    DirectoriesStay(t, j.tree, j.directories, p, node);
  }

  /** Whether it raises or not. */
  lemma StepKeeps(t: Tree, j: Journal, step: Step)
    requires Kept(t, j) && Reversible(j, step)
    ensures Kept(t, Do(j, step).journal)
  {
    var p := step.path;
    if !step.luck.Early? && !Barred(j.tree, step) {
      if step.Make? {
        if !IsDir(j.tree, p) && step.luck.Fine? {
          MadeDirectoryKeeps(t, j, p);
        }
      } else if IsFile(j.tree, p) {
        RewrittenFileKeeps(t, j, p, step.text, step.mode, step.luck);
      } else if step.luck.Fine? {
        NewFileKeeps(t, j, p, step.text, step.mode);
      } else {
        assert WithAncestors(j.tree, Reached(p, step.luck.depth), j.unused) == j.tree;
      }
    }
  }

  lemma {:induction false} StepsKeep(t: Tree, j: Journal, steps: seq<Step>)
    requires Kept(t, j) && AllReversible(j, steps)
    ensures Kept(t, DoAll(j, steps))
    decreases |steps|
  {
    hide Kept;
    hide Do;
    hide Reversible;
    if steps != [] {
      StepKeeps(t, j, steps[0]);
      if Do(j, steps[0]).Done? {
        StepsKeep(t, Do(j, steps[0]).journal, steps[1..]);
      }
    }
  }

  // ---------------------------------------------------- the rollback restores

  predicate Removable(now: Tree, files: Entries) {
    forall i :: 0 <= i < |files| && files[i].0 in now ==> IsFile(now, files[i].0) && now[files[i].0].id == files[i].1
  }

  lemma {:induction false} UnlinkedIs(now: Tree, files: Entries)
    requires Removable(now, files)
    ensures forall p :: p in Unlinked(now, files) <==> p in now && !Lists(files, p)
    ensures forall p :: p in Unlinked(now, files) ==> Unlinked(now, files)[p] == now[p]
    decreases |files|
  {
    if files != [] {
      var n := |files| - 1;
      var (p, id) := files[n];
      var next := if IsFile(now, p) && now[p].id == id then now - {p} else now;
      assert files == files[..n] + [files[n]];
      ListsMore(files[..n], files[n]);
      UnlinkedIs(next, files[..n]);
      hide Lists;
    }
  }

  /** Where the rollback stands when the first `n` journaled directories are still there. */
  ghost predicate Remaining(t: Tree, now: Tree, directories: Entries, n: nat)
    requires n <= |directories|
  {
    && (forall p :: p in t ==> p in now)
    && (forall p :: p in now ==> p in t || Lists(directories[..n], p))
    && (forall i :: 0 <= i < n ==> directories[i].0 in now && now[directories[i].0] == Dir(directories[i].1))
  }

  /** The last journaled directory is empty when its turn comes. */
  lemma LastIsEmpty(t: Tree, made: Tree, now: Tree, directories: Entries, n: nat)
    requires Wellformed(t) && DirectoriesAreMade(t, made, directories) && 0 < n <= |directories|
             && Remaining(t, now, directories, n)
    ensures Empty(now, directories[n - 1].0)
  {
    var p := directories[n - 1].0;
    assert DirectoryIsMade(t, made, directories, n - 1);
    forall q | q in now && q != []
      ensures Parent(q) != p
    {
      if q !in t {
        var k :| 0 <= k < n && directories[..n][k].0 == q;
        assert directories[k].0 == q && DirectoryIsMade(t, made, directories, k);
      }
    }
  }

  lemma OneLess(t: Tree, made: Tree, now: Tree, directories: Entries, n: nat)
    requires DirectoriesAreMade(t, made, directories) && 0 < n <= |directories| && Remaining(t, now, directories, n)
    ensures Remaining(t, now - {directories[n - 1].0}, directories, n - 1)
  {
    var p := directories[n - 1].0;
    assert DirectoryIsMade(t, made, directories, n - 1);
    assert directories[..n] == directories[..n - 1] + [directories[n - 1]];
    ListsMore(directories[..n - 1], directories[n - 1]);
    hide Lists;
  }

  lemma {:induction false} RemovedIs(t: Tree, made: Tree, now: Tree, directories: Entries, n: nat)
    requires Wellformed(t) && DirectoriesAreMade(t, made, directories) && n <= |directories|
             && Remaining(t, now, directories, n)
    ensures Removed(now, directories[..n]).Keys == t.Keys
    ensures forall p :: p in t ==> p in now && Removed(now, directories[..n])[p] == now[p]
    decreases n
  {
    if n == 0 {
      assert forall p :: !Lists(directories[..0], p);
    } else {
      var (p, id) := directories[n - 1];
      assert directories[..n][..n - 1] == directories[..n - 1];
      LastIsEmpty(t, made, now, directories, n);
      OneLess(t, made, now, directories, n);
      assert DirectoryIsMade(t, made, directories, n - 1);
      hide Wellformed;
      hide DirectoriesAreMade;
      hide Empty;
      assert Removed(now, directories[..n]) == Removed(now - {p}, directories[..n - 1]);
      RemovedIs(t, made, now - {p}, directories, n - 1);
    }
  }

  /** Rolling back what was kept within reach restores the tree, contents and modes. */
  lemma KeptIsRestored(t: Tree, j: Journal)
    requires Kept(t, j)
    ensures Same(t, RolledBack(j))
  {
    var unlinked := Unlinked(j.tree, j.files);
    UnlinkedIs(j.tree, j.files);
    var restored := Restored(unlinked, j.originals, j.unused);
    RestoredIs(t, j);
    assert j.directories[..|j.directories|] == j.directories;
    RemovedIs(t, j.tree, restored, j.directories, |j.directories|);
  }

  lemma RestoredIs(t: Tree, j: Journal)
    requires Kept(t, j)
    ensures var restored := Restored(Unlinked(j.tree, j.files), j.originals, j.unused);
            && Remaining(t, restored, j.directories, |j.directories|)
            && forall p :: p in t ==>
                 match t[p]
                 case Dir(_) => restored[p] == t[p]
                 case File(_, text, mode) => restored[p].File? && restored[p].text == text && restored[p].mode == mode
  {
    UnlinkedIs(j.tree, j.files) by { FilesCanGo(t, j); }
    OriginalsStay(t, j);
    DirectoriesStand(t, j);
    assert j.directories[..|j.directories|] == j.directories;
    hide Lists;
    hide Wellformed;
    hide FilesAreMade;
    hide DirectoriesAreMade;
    hide Unlinked;
  }

  lemma FilesCanGo(t: Tree, j: Journal)
    requires Kept(t, j)
    ensures Removable(j.tree, j.files)
  {
  }

  lemma OriginalsStay(t: Tree, j: Journal)
    requires Kept(t, j)
    ensures forall p :: p in t ==> p in j.tree && !Lists(j.files, p)
    ensures forall p :: p in j.originals ==> p in t
  {
  }

  lemma DirectoriesStand(t: Tree, j: Journal)
    requires Kept(t, j)
    ensures forall i :: 0 <= i < |j.directories| ==>
              var p := j.directories[i].0;
              p in j.tree && j.tree[p] == Dir(j.directories[i].1) && !Lists(j.files, p) && p !in j.originals
  {
    forall i | 0 <= i < |j.directories|
      ensures var p := j.directories[i].0;
              p in j.tree && j.tree[p] == Dir(j.directories[i].1) && !Lists(j.files, p) && p !in j.originals
    {
      assert DirectoryIsMade(t, j.tree, j.directories, i);
    }
  }

  // --------------------------------------------------- what is out of reach

  /** New, and either a directory nobody journaled or a file that is not the one journaled. */
  ghost predicate Stray(t: Tree, j: Journal, q: Path) {
    && q in j.tree && q !in t
    && match j.tree[q]
       case Dir(_) => !Lists(j.directories, q)
       case File(id, _, _) => forall i :: 0 <= i < |j.files| && j.files[i].0 == q ==> j.files[i].1 != id
  }

  /** Journaled with a text it did not have before, or though it was not there before. */
  ghost predicate Garbled(t: Tree, j: Journal, q: Path) {
    IsFile(j.tree, q) && q in j.originals && (q !in t || t[q].Dir? || t[q].text != j.originals[q].0)
  }

  predicate IdsBelow(j: Journal) {
    forall i :: 0 <= i < |j.files| ==> j.files[i].1 < j.unused
  }

  lemma StepKeepsIds(j: Journal, step: Step)
    requires IdsBelow(j)
    ensures IdsBelow(Do(j, step).journal)
  {
    hide UniversalNewlines;
  }

  lemma StrayStays(t: Tree, j: Journal, step: Step, q: Path)
    requires Stray(t, j, q) && IdsBelow(j)
    ensures Stray(t, Do(j, step).journal, q)
  {
    ListsMore(j.directories, (step.path, j.unused));
    hide Lists;
    hide UniversalNewlines;
  }

  lemma GarbledStays(t: Tree, j: Journal, step: Step, q: Path)
    requires Garbled(t, j, q)
    ensures Garbled(t, Do(j, step).journal, q)
  {
    hide UniversalNewlines;
  }

  /** A step out of reach leaves a stray behind, or a journal that knows another text. */
  lemma IrreversibleSpoils(t: Tree, j: Journal, step: Step) returns (q: Path)
    requires Kept(t, j) && !Reversible(j, step)
    ensures Stray(t, Do(j, step).journal, q) || Garbled(t, Do(j, step).journal, q)
  {
    var p := step.path;
    if step.Make? {
      q := p;
      NewIsUnknown(t, j, p);
    } else if IsFile(j.tree, p) {
      q := p;
      RewriteGarbles(t, j, step);
    } else {
      q := if step.luck.Fine? then Parent(p) else if step.luck.Late? then p else Reached(p, step.luck.depth);
      CreateStrays(t, j, step, q);
    }
  }

  lemma CreateStrays(t: Tree, j: Journal, step: Step, q: Path)
    requires Kept(t, j) && !Reversible(j, step) && step.Write? && !IsFile(j.tree, step.path)
    requires var p := step.path;
             q == if step.luck.Fine? then Parent(p) else if step.luck.Late? then p else Reached(p, step.luck.depth)
    ensures Stray(t, Do(j, step).journal, q)
  {
    var p := step.path;
    assert q < p ==> q == p[..|q|] && !IsFile(j.tree, p[..|q|]);
    NewIsUnknown(t, j, q);
    hide Kept;
    hide Lists;
    assert !step.luck.Late? ==> q in WithAncestors(j.tree, q, j.unused) && q != p;
  }

  lemma NewIsUnknown(t: Tree, j: Journal, p: Path)
    requires Kept(t, j) && p !in j.tree
    ensures p !in t && !Lists(j.directories, p) && !Lists(j.files, p)
  {
    forall i | 0 <= i < |j.directories|
      ensures j.directories[i].0 != p
    {
      assert DirectoryIsMade(t, j.tree, j.directories, i);
    }
  }

  lemma RewriteGarbles(t: Tree, j: Journal, step: Step)
    requires Kept(t, j) && !Reversible(j, step) && step.Write? && IsFile(j.tree, step.path)
    ensures Garbled(t, Do(j, step).journal, step.path)
  {
    hide UniversalNewlines;
    if !Lists(j.files, step.path) {
      WrittenWasThere(t, j, step.path);
    }
  }

  /** The rollback does not touch a stray. */
  lemma StrayRemains(t: Tree, j: Journal, q: Path)
    requires Stray(t, j, q)
    ensures q in RolledBack(j) && !Same(t, RolledBack(j))
  {
    UnlinkedKeeps(j.tree, j.files, q);
    var restored := Restored(Unlinked(j.tree, j.files), j.originals, j.unused);
    RemovedKeeps(restored, j.directories, q);
  }

  /** And it puts back what the journal knows. */
  lemma GarbledIsPutBack(t: Tree, j: Journal, q: Path)
    requires Garbled(t, j, q)
    ensures !Same(t, RolledBack(j))
  {
    UnlinkedOnlyDrops(j.tree, j.files);
    var restored := Restored(Unlinked(j.tree, j.files), j.originals, j.unused);
    assert restored[q] == File(j.unused, j.originals[q].0, j.originals[q].1);
    RemovedKeeps(restored, j.directories, q);
  }

  lemma {:induction false} UnlinkedOnlyDrops(now: Tree, files: Entries)
    ensures forall q :: q in Unlinked(now, files) ==> q in now && Unlinked(now, files)[q] == now[q]
    decreases |files|
  {
    if files != [] {
      var n := |files| - 1;
      var (p, id) := files[n];
      UnlinkedOnlyDrops(if IsFile(now, p) && now[p].id == id then now - {p} else now, files[..n]);
    }
  }

  lemma {:induction false} UnlinkedKeeps(now: Tree, files: Entries, q: Path)
    requires q in now
             && (IsFile(now, q) ==> forall i :: 0 <= i < |files| && files[i].0 == q ==> files[i].1 != now[q].id)
    ensures q in Unlinked(now, files) && Unlinked(now, files)[q] == now[q]
    decreases |files|
  {
    if files != [] {
      var n := |files| - 1;
      var (p, id) := files[n];
      var next := if IsFile(now, p) && now[p].id == id then now - {p} else now;
      UnlinkedKeeps(next, files[..n], q);
    }
  }

  lemma {:induction false} RemovedKeeps(now: Tree, directories: Entries, q: Path)
    requires q in now && (IsDir(now, q) ==> !Lists(directories, q))
    ensures q in Removed(now, directories) && Removed(now, directories)[q] == now[q]
    decreases |directories|
  {
    if directories != [] {
      var n := |directories| - 1;
      var (p, id) := directories[n];
      var next := if IsDir(now, p) && now[p].id == id && Empty(now, p) then now - {p} else now;
      assert directories == directories[..n] + [directories[n]];
      ListsMore(directories[..n], directories[n]);
      RemovedKeeps(next, directories[..n], q);
    }
  }

  lemma {:induction false} SpoiledIsNotRestored(t: Tree, j: Journal, steps: seq<Step>, q: Path)
    requires (Stray(t, j, q) || Garbled(t, j, q)) && IdsBelow(j)
    ensures !Same(t, RolledBack(DoAll(j, steps)))
    decreases |steps|
  {
    hide Stray;
    hide Garbled;
    hide IdsBelow;
    hide Do;
    hide Same;
    hide RolledBack;
    var now := if steps == [] then j else Do(j, steps[0]).journal;
    if steps != [] {
      if Stray(t, j, q) { StrayStays(t, j, steps[0], q); } else { GarbledStays(t, j, steps[0], q); }
      StepKeepsIds(j, steps[0]);
    }
    if steps != [] && Do(j, steps[0]).Done? {
      SpoiledIsNotRestored(t, now, steps[1..], q);
    } else if Stray(t, now, q) {
      StrayRemains(t, now, q);
    } else {
      GarbledIsPutBack(t, now, q);
    }
  }

  lemma {:induction false} IrreversibleIsNotRestored(t: Tree, j: Journal, steps: seq<Step>)
    requires Kept(t, j) && IdsBelow(j) && !AllReversible(j, steps)
    ensures !Same(t, RolledBack(DoAll(j, steps)))
    decreases |steps|
  {
    hide Kept;
    hide IdsBelow;
    hide Stray;
    hide Garbled;
    hide Do;
    hide Reversible;
    hide Same;
    hide RolledBack;
    var next := Do(j, steps[0]);
    StepKeepsIds(j, steps[0]);
    if Reversible(j, steps[0]) {
      StepKeeps(t, j, steps[0]);
      IrreversibleIsNotRestored(t, next.journal, steps[1..]);
    } else {
      var q := IrreversibleSpoils(t, j, steps[0]);
      if next.Done? {
        SpoiledIsNotRestored(t, next.journal, steps[1..], q);
      } else {
        SpoiledIsNotRestored(t, next.journal, [], q);
      }
    }
  }

  lemma BeginIsKept(t: Tree, unused: nat)
    requires Wellformed(t)
    ensures Kept(t, Begin(t, unused)) && IdsBelow(Begin(t, unused))
  {
  }

  /**
    Stopping at any step, whatever that step still did, and rolling back restores the original tree, contents and
    modes exactly when every step was within reach.
   */
  lemma RollbackIsInverse(t: Tree, unused: nat, steps: seq<Step>)
    requires Wellformed(t)
    ensures Same(t, RolledBack(DoAll(Begin(t, unused), steps))) <==> AllReversible(Begin(t, unused), steps)
  {
    hide Kept;
    hide Same;
    BeginIsKept(t, unused);
    if AllReversible(Begin(t, unused), steps) {
      StepsKeep(t, Begin(t, unused), steps);
      KeptIsRestored(t, DoAll(Begin(t, unused), steps));
    } else {
      IrreversibleIsNotRestored(t, Begin(t, unused), steps);
    }
  }

  // ------------------------------------------------------- four such inputs

  const ROOT: Tree := map[[] := Dir(0)]
  const RW: nat := 0x1A4

  /** A line end of Windows comes back as a line feed, even if the file was never rewritten. */
  lemma CarriageReturnIsLost()
    ensures var t := ROOT[["a"] := File(1, "x\r\n", RW)];
            var j := DoAll(Begin(t, 2), [Write(["a"], "y", RW, Midway(0))]);
            Wellformed(t) && j.tree == t && RolledBack(j) == ROOT[["a"] := File(2, "x\n", RW)]
              && !Same(t, RolledBack(j))
  {
    var t := ROOT[["a"] := File(1, "x\r\n", RW)];
    var step := Write(["a"], "y", RW, Midway(0));
    var read := UniversalNewlines("x\r\n");
    assert read == ['x'] + UniversalNewlines("x\r\n"[1..]) && UniversalNewlines("x\r\n"[3..]) == [];
    assert "x\r\n"[1..][2..] == [] && read == "x\n";
    assert ["a"][..0] == [];
    var j := DoAll(Begin(t, 2), [step]);
    assert j == Begin(t, 2).(originals := map[["a"] := ("x\n", RW)]);
    assert Unlinked(t, []) == t;
  }

  /** A directory made by the writer of a file below it stays. */
  lemma MissingParentStays()
    ensures var j := DoAll(Begin(ROOT, 1), [Write(["a", "b"], "x", RW, Fine), Make(["c"], Midway(0))]);
            Wellformed(ROOT) && ["a"] in RolledBack(j) && !Same(ROOT, RolledBack(j))
  {
    var first, second := Write(["a", "b"], "x", RW, Fine), Make(["c"], Midway(0));
    assert Parent(["a", "b"]) == ["a"] && ["a", "b"][..0] == [];
    assert !Reversible(Begin(ROOT, 1), first);
    var made := Do(Begin(ROOT, 1), first).journal;
    assert [first, second][1..] == [second] && Do(made, second) == Raised(made);
    assert Stray(ROOT, made, ["a"]);
    StrayRemains(ROOT, made, ["a"]);
  }

  /** A created file that is written again is not removed. */
  lemma SecondWriteStays()
    ensures var j := DoAll(Begin(ROOT, 1),
                           [Write(["a"], "x", RW, Fine), Write(["a"], "y", RW, Fine), Make(["c"], Midway(0))]);
            Wellformed(ROOT) && ["a"] in RolledBack(j) && !Same(ROOT, RolledBack(j))
  {
    var steps := [Write(["a"], "x", RW, Fine), Write(["a"], "y", RW, Fine), Make(["c"], Midway(0))];
    TwoWrites();
    hide Do;
    hide UniversalNewlines;
    var once := Do(Begin(ROOT, 1), steps[0]).journal;
    var twice := Do(once, steps[1]).journal;
    assert steps[1..][1..] == [steps[2]];
    assert DoAll(Begin(ROOT, 1), steps) == DoAll(once, steps[1..]) == DoAll(twice, steps[1..][1..]) == twice;
    assert Stray(ROOT, twice, ["a"]);
    StrayRemains(ROOT, twice, ["a"]);
  }

  lemma TwoWrites()
    ensures var once := Do(Begin(ROOT, 1), Write(["a"], "x", RW, Fine));
            var twice := Do(once.journal, Write(["a"], "y", RW, Fine));
            && once.Done? && twice.Done? && Do(twice.journal, Make(["c"], Midway(0))) == Raised(twice.journal)
            && twice.journal.tree == ROOT[["a"] := File(3, "y", RW)] && twice.journal.files == [(["a"], 2)]
  {
    hide UniversalNewlines;
    assert Parent(["a"]) == [] && ["a"][..0] == [] && Parent(["c"]) == [];
    var once := Do(Begin(ROOT, 1), Write(["a"], "x", RW, Fine));
    assert once == Done(Journal(ROOT[["a"] := File(2, "x", RW)], 3, [], [(["a"], 2)], map[]));
  }

  /** Nor is a file whose check after the write fails. */
  lemma UncheckedFileStays()
    ensures var j := DoAll(Begin(ROOT, 1), [Write(["a"], "x", RW, Late)]);
            Wellformed(ROOT) && ["a"] in RolledBack(j) && !Same(ROOT, RolledBack(j))
  {
    assert Parent(["a"]) == [] && ["a"][..0] == [];
    var j := DoAll(Begin(ROOT, 1), [Write(["a"], "x", RW, Late)]);
    assert Stray(ROOT, j, ["a"]);
    StrayRemains(ROOT, j, ["a"]);
  }

  /**
    A rollback takes away nothing it did not make: whatever stands where something made was replaced by another file, or
    a directory that is not empty any more, stays as it is.
   */
  lemma RollbackSparesOthers(j: Journal, q: Path)
    requires q in j.tree && q !in j.originals
    requires IsFile(j.tree, q) ==> forall i :: 0 <= i < |j.files| && j.files[i].0 == q ==> j.files[i].1 != j.tree[q].id
    requires IsDir(j.tree, q) ==>
               forall i :: 0 <= i < |j.directories| && j.directories[i].0 == q ==> j.directories[i].1 != j.tree[q].id
    ensures q in RolledBack(j) && RolledBack(j)[q] == j.tree[q]
  {
    UnlinkedKeeps(j.tree, j.files, q);
    var restored := Restored(Unlinked(j.tree, j.files), j.originals, j.unused);
    ForeignStays(restored, j.directories, q);
  }

  lemma {:induction false} ForeignStays(now: Tree, directories: Entries, q: Path)
    requires q in now && (IsDir(now, q) ==> forall i :: 0 <= i < |directories| && directories[i].0 == q ==>
                            directories[i].1 != now[q].id)
    ensures q in Removed(now, directories) && Removed(now, directories)[q] == now[q]
    decreases |directories|
  {
    if directories != [] {
      var n := |directories| - 1;
      var (p, id) := directories[n];
      assert p == q && IsDir(now, q) ==> now[q].id != id;
      ForeignStays(if IsDir(now, p) && now[p].id == id && Empty(now, p) then now - {p} else now, directories[..n], q);
    }
  }

  /** A directory with something in it that a rollback does not take away is not taken away either. */
  lemma {:induction false} FullDirectoryStays(now: Tree, directories: Entries, q: Path)
    requires q in now && q != [] && IsDir(now, Parent(q)) && (IsDir(now, q) ==> !Lists(directories, q))
    ensures Parent(q) in Removed(now, directories)
    decreases |directories|
  {
    if directories != [] {
      var n := |directories| - 1;
      var (p, id) := directories[n];
      assert !Empty(now, Parent(q));
      assert directories == directories[..n] + [directories[n]];
      ListsMore(directories[..n], directories[n]);
      FullDirectoryStays(if IsDir(now, p) && now[p].id == id && Empty(now, p) then now - {p} else now, directories[..n],
                         q);
    }
  }
}
