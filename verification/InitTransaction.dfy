/** `_InitTransaction` and the apply loop of `_init` as the updates they are (kigumi/cli.py). */
module InitTransactions {
  import opened Wrappers
  import opened InitJournal

  class Project {
    var tree: Tree
    var unused: nat

    constructor (tree: Tree, unused: nat)
      ensures this.tree == tree && this.unused == unused
    {
      this.tree, this.unused := tree, unused;
    }
  }

  /** The components `ensure_directory` walks through. */
  function Components(path: Path, luck: nat -> Luck): seq<Step> {
    seq(|path|, i requires 0 <= i < |path| => Make(path[..i + 1], luck(i)))
  }

  lemma {:induction false} DoAllTogether(j: Journal, a: seq<Step>, step: Step)
    requires AllDone(j, a)
    ensures DoAll(j, a + [step]) == Do(DoAll(j, a), step).journal
    ensures AllDone(j, a + [step]) <==> Do(DoAll(j, a), step).Done?
    decreases |a|
  {
    if a == [] {
      assert a + [step] == [step] && [step][1..] == [];
    } else {
      assert (a + [step])[1..] == a[1..] + [step];
      DoAllTogether(Do(j, a[0]).journal, a[1..], step);
    }
  }

  /** No step raises. */
  predicate AllDone(j: Journal, steps: seq<Step>)
    decreases |steps|
  {
    steps == [] || (Do(j, steps[0]).Done? && AllDone(Do(j, steps[0]).journal, steps[1..]))
  }

  /** Stopping at a step that raises, whatever would have come after it. */
  lemma {:induction false} StoppedThere(j: Journal, a: seq<Step>, step: Step, rest: seq<Step>)
    requires AllDone(j, a) && Do(DoAll(j, a), step).Raised?
    ensures DoAll(j, a + [step] + rest) == Do(DoAll(j, a), step).journal && !AllDone(j, a + [step] + rest)
    decreases |a|
  {
    if a == [] {
      assert (a + [step] + rest)[0] == step;
    } else {
      assert (a + [step] + rest)[1..] == a[1..] + [step] + rest;
      StoppedThere(Do(j, a[0]).journal, a[1..], step, rest);
    }
  }

  class InitTransaction {
    const project: Project
    var createdDirectories: seq<(Path, nat)>
    var createdFiles: seq<(Path, nat)>
    var originalFiles: map<Path, (string, nat)>

    constructor (project: Project)
      ensures this.project == project && Now() == Begin(project.tree, project.unused)
    {
      this.project := project;
      createdDirectories, createdFiles, originalFiles := [], [], map[];
    }

    ghost function Now(): Journal
      reads this, project
    {
      Journal(project.tree, project.unused, createdDirectories, createdFiles, originalFiles)
    }

    /** One component of `ensure_directory`: the directory is journaled only after the check that it is there. */
    method MakeDirectory(path: Path, luck: Luck) returns (ok: bool)
      modifies this`createdDirectories, project
      ensures ok == Do(old(Now()), Make(path, luck)).Done?
      ensures Now() == Do(old(Now()), Make(path, luck)).journal
    {
      if luck.Early? {
        return false;
      }
      if IsDir(project.tree, path) {
        return true;
      }
      if path in project.tree || path == [] || !IsDir(project.tree, Parent(path)) || luck.Midway? {
        return false;
      }
      var identity := project.unused;
      project.tree := project.tree[path := Dir(identity)];
      project.unused := project.unused + 1;
      if luck.Late? {
        return false;
      }
      createdDirectories := createdDirectories + [(path, identity)];
      return true;
    }

    method EnsureDirectory(path: Path, luck: nat -> Luck) returns (ok: bool)
      modifies this`createdDirectories, project
      ensures ok == AllDone(old(Now()), Components(path, luck))
      ensures Now() == DoAll(old(Now()), Components(path, luck))
    {
      ghost var begin := Now();
      ghost var all := Components(path, luck);
      for i := 0 to |path|
        invariant AllDone(begin, all[..i]) && Now() == DoAll(begin, all[..i])
      {
        DoAllTogether(begin, all[..i], all[i]);
        assert all[..i + 1] == all[..i] + [all[i]];
        ok := MakeDirectory(path[..i + 1], luck(i));
        if !ok {
          StoppedThere(begin, all[..i], all[i], all[i + 1..]);
          assert all == all[..i] + [all[i]] + all[i + 1..];
          return;
        }
      }
      assert all[..|path|] == all;
      ok := true;
    }

    /** A file that is there is journaled as read, before the write; a new one by its identity, after the write. */
    method WriteText(path: Path, text: string, mode: nat, luck: Luck) returns (ok: bool)
      modifies this`createdFiles, this`originalFiles, project
      ensures ok == Do(old(Now()), Write(path, text, mode, luck)).Done?
      ensures Now() == Do(old(Now()), Write(path, text, mode, luck)).journal
    {
      if luck.Early? || path == [] || IsDir(project.tree, path)
         || exists i :: 0 <= i < |path| && IsFile(project.tree, path[..i]) {
        return false;
      }
      var isNew := !IsFile(project.tree, path);
      if !isNew && path !in originalFiles {
        originalFiles := originalFiles[path := (UniversalNewlines(project.tree[path].text), project.tree[path].mode)];
      }
      var identity := AtomicWrite(path, text, mode, luck);
      if !luck.Fine? {
        return false;
      }
      if isNew {
        createdFiles := createdFiles + [(path, identity)];
      }
      return true;
    }

    /** The atomic writer, with the directories it makes on its way. */
    method AtomicWrite(path: Path, text: string, mode: nat, luck: Luck) returns (identity: nat)
      requires path != []
      modifies project
      ensures var (t, n) := (old(project.tree), old(project.unused));
              if IsFile(t, path) then
                if luck.Fine? || luck.Late?
                then project.tree == t[path := File(n, text, mode)] && project.unused == n + 1
                else project.tree == t && project.unused == n
              else
                match luck
                case Midway(depth) => project.tree == WithAncestors(t, Reached(path, depth), n)
                  && project.unused == n + 1
                case Early => project.tree == t && project.unused == n
                case _ => project.tree == WithAncestors(t, Parent(path), n)[path := File(n + 1, text, mode)]
                          && project.unused == n + 2 && identity == n + 1
    {
      identity := project.unused;
      if luck.Early? {
        return;
      }
      if IsFile(project.tree, path) {
        if luck.Midway? {
          return;
        }
      } else {
        var reached := if luck.Midway? then Reached(path, luck.depth) else Parent(path);
        project.tree := WithAncestors(project.tree, reached, project.unused);
        project.unused := project.unused + 1;
        if luck.Midway? {
          return;
        }
      }
      identity := project.unused;
      project.tree := project.tree[path := File(identity, text, mode)];
      project.unused := project.unused + 1;
    }

    /** Unlink what was created, put back what was rewritten, remove the directories that were made. */
    method Rollback()
      modifies project
      ensures project.tree == RolledBack(old(Now()))
    {
      ghost var j := Now();
      var i := |createdFiles|;
      assert createdFiles[..i] == createdFiles;
      while i > 0
        invariant 0 <= i <= |createdFiles|
        invariant Unlinked(project.tree, createdFiles[..i]) == Unlinked(j.tree, j.files)
        invariant project.unused == j.unused
      {
        i := i - 1;
        assert createdFiles[..i + 1][..i] == createdFiles[..i];
        var (path, id) := createdFiles[i];
        if IsFile(project.tree, path) && project.tree[path].id == id {
          project.tree := project.tree - {path};
        }
      }
      RestoreOriginals();
      i := |createdDirectories|;
      assert createdDirectories[..i] == createdDirectories;
      while i > 0
        invariant 0 <= i <= |createdDirectories|
        invariant Removed(project.tree, createdDirectories[..i]) == RolledBack(j)
      {
        i := i - 1;
        assert createdDirectories[..i + 1][..i] == createdDirectories[..i];
        var (path, id) := createdDirectories[i];
        if IsDir(project.tree, path) && project.tree[path].id == id && Empty(project.tree, path) {
          project.tree := project.tree - {path};
        }
      }
    }

    method RestoreOriginals()
      modifies project
      ensures project.tree == Restored(old(project.tree), originalFiles, old(project.unused))
      ensures project.unused == old(project.unused)
    {
      hide Partly;
      hide Restored;
      ghost var before := project.tree;
      var left := originalFiles.Keys;
      NothingRestored(before, originalFiles, project.unused);
      while left != {}
        invariant left <= originalFiles.Keys && project.unused == old(project.unused)
        invariant project.tree == Partly(before, originalFiles, originalFiles.Keys - left, project.unused)
        decreases |left|
      {
        var path :| path in left;
        OneMoreRestored(before, originalFiles, originalFiles.Keys - left, project.unused, path);
        assert originalFiles.Keys - (left - {path}) == (originalFiles.Keys - left) + {path};
        if !IsDir(project.tree, path) {
          project.tree := project.tree[path := File(project.unused, originalFiles[path].0, originalFiles[path].1)];
        }
        left := left - {path};
      }
      assert originalFiles.Keys - {} == originalFiles.Keys;
      AllRestored(before, originalFiles, project.unused);
    }
  }

  /** The tree with some of the rewritten files restored. */
  ghost function Partly(t: Tree, originals: map<Path, (string, nat)>, done: set<Path>, id: nat): Tree
    requires done <= originals.Keys
  {
    map p | p in t.Keys + done :: if p in done && !IsDir(t, p) then File(id, originals[p].0, originals[p].1) else t[p]
  }

  lemma NothingRestored(t: Tree, originals: map<Path, (string, nat)>, id: nat)
    ensures Partly(t, originals, {}, id) == t
    ensures originals.Keys - originals.Keys == {}
  {
  }

  lemma AllRestored(t: Tree, originals: map<Path, (string, nat)>, id: nat)
    ensures Partly(t, originals, originals.Keys, id) == Restored(t, originals, id)
  {
  }

  lemma OneMoreRestored(t: Tree, originals: map<Path, (string, nat)>, done: set<Path>, id: nat, p: Path)
    requires done <= originals.Keys && p in originals && p !in done
    ensures var now := Partly(t, originals, done, id);
            Partly(t, originals, done + {p}, id) == if IsDir(now, p) then now
              else now[p := File(id, originals[p].0, originals[p].1)]
  {
  }

  // ------------------------------------------------------- the apply loop

  /** An entry of the plan: a directory with all its components, or a file with its text. */
  datatype Item = Directory(path: Path, luck: nat -> Luck) | Text(path: Path, text: string, mode: nat, fate: Luck)

  function StepsOf(item: Item): seq<Step> {
    match item
    case Directory(path, luck) => Components(path, luck)
    case Text(path, text, mode, fate) => [Write(path, text, mode, fate)]
  }

  function Steps(plan: seq<Item>): seq<Step> {
    if plan == [] then [] else Steps(plan[..|plan| - 1]) + StepsOf(plan[|plan| - 1])
  }

  lemma StepsOfOneMore(plan: seq<Item>, k: nat)
    requires k < |plan|
    ensures Steps(plan[..k + 1]) == Steps(plan[..k]) + StepsOf(plan[k])
  {
    assert plan[..k + 1][..k] == plan[..k];
  }

  lemma {:induction false} StepsBegin(plan: seq<Item>, k: nat)
    requires k <= |plan|
    ensures Steps(plan[..k]) <= Steps(plan)
    decreases |plan| - k
  {
    if k == |plan| {
      assert plan[..k] == plan;
    } else {
      StepsOfOneMore(plan, k);
      StepsBegin(plan, k + 1);
    }
  }

  /** Doing one list of steps after another. */
  lemma {:induction false} DoAllAfter(j: Journal, a: seq<Step>, b: seq<Step>)
    requires AllDone(j, a)
    ensures DoAll(j, a + b) == DoAll(DoAll(j, a), b)
    ensures AllDone(j, a + b) <==> AllDone(DoAll(j, a), b)
    decreases |a|
  {
    if a == [] {
      assert a + b == b;
    } else {
      assert (a + b)[1..] == a[1..] + b;
      DoAllAfter(Do(j, a[0]).journal, a[1..], b);
    }
  }

  /** A list of steps that raises is where it ends, whatever would have come after it. */
  lemma {:induction false} StopsThere(j: Journal, a: seq<Step>, rest: seq<Step>)
    requires !AllDone(j, a)
    ensures DoAll(j, a + rest) == DoAll(j, a) && !AllDone(j, a + rest)
    decreases |a|
  {
    assert (a + rest)[0] == a[0] && (a + rest)[1..] == a[1..] + rest;
    if Do(j, a[0]).Done? {
      StopsThere(Do(j, a[0]).journal, a[1..], rest);
    }
  }

  lemma PlanGoesOn(j: Journal, plan: seq<Item>, k: nat)
    requires k < |plan| && AllDone(j, Steps(plan[..k]))
    ensures var now := DoAll(j, Steps(plan[..k]));
            && DoAll(j, Steps(plan[..k + 1])) == DoAll(now, StepsOf(plan[k]))
            && (AllDone(j, Steps(plan[..k + 1])) <==> AllDone(now, StepsOf(plan[k])))
  {
    hide DoAll;
    hide AllDone;
    StepsOfOneMore(plan, k);
    DoAllAfter(j, Steps(plan[..k]), StepsOf(plan[k]));
  }

  lemma PlanStops(j: Journal, plan: seq<Item>, k: nat)
    requires k < |plan| && !AllDone(j, Steps(plan[..k + 1]))
    ensures DoAll(j, Steps(plan)) == DoAll(j, Steps(plan[..k + 1])) && !AllDone(j, Steps(plan))
  {
    hide DoAll;
    hide AllDone;
    var done := Steps(plan[..k + 1]);
    StepsBegin(plan, k + 1);
    StopsThere(j, done, Steps(plan)[|done|..]);
    assert Steps(plan) == done + Steps(plan)[|done|..];
  }

  /** One entry of the plan. */
  method ApplyItem(transaction: InitTransaction, item: Item) returns (ok: bool)
    modifies transaction, transaction.project
    ensures ok == AllDone(old(transaction.Now()), StepsOf(item))
    ensures transaction.Now() == DoAll(old(transaction.Now()), StepsOf(item))
  {
    hide Do;
    hide Components;
    match item {
      case Directory(path, luck) => ok := transaction.EnsureDirectory(path, luck);
      case Text(path, text, mode, fate) =>
        OneStep(transaction.Now(), Write(path, text, mode, fate));
        ok := transaction.WriteText(path, text, mode, fate);
    }
  }

  /** The apply loop: every entry of the plan, or all of it undone at the first that raises. */
  method Init(project: Project, plan: seq<Item>) returns (ok: bool)
    requires Wellformed(project.tree)
    modifies project
    ensures ok == AllDone(old(Begin(project.tree, project.unused)), Steps(plan))
    ensures ok ==> project.tree == DoAll(old(Begin(project.tree, project.unused)), Steps(plan)).tree
    ensures !ok ==> (Same(old(project.tree), project.tree)
                     <==> AllReversible(old(Begin(project.tree, project.unused)), Steps(plan)))
  {
    ghost var begin := Begin(project.tree, project.unused);
    ghost var original := project.tree;
    NothingDone(begin, plan);
    hide Wellformed;
    hide Same;
    hide RolledBack;
    hide AllReversible;
    hide AllDone;
    hide DoAll;
    hide Steps;
    hide StepsOf;
    var transaction := new InitTransaction(project);
    for k := 0 to |plan|
      invariant AllDone(begin, Steps(plan[..k])) && transaction.Now() == DoAll(begin, Steps(plan[..k]))
      invariant transaction.project == project
    {
      PlanGoesOn(begin, plan, k);
      ok := ApplyItem(transaction, plan[k]);
      if !ok {
        PlanStops(begin, plan, k);
        transaction.Rollback();
        RollbackIsInverse(original, begin.unused, Steps(plan));
        return;
      }
    }
    assert plan[..|plan|] == plan;
    ok := true;
  }

  lemma NothingDone(j: Journal, plan: seq<Item>)
    ensures AllDone(j, Steps(plan[..0])) && DoAll(j, Steps(plan[..0])) == j
  {
  }

  lemma OneStep(j: Journal, step: Step)
    ensures DoAll(j, [step]) == Do(j, step).journal && (AllDone(j, [step]) <==> Do(j, step).Done?)
  {
    assert [step][1..] == [];
  }
}
