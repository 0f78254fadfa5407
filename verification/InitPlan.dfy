/** What `kigumi init` leaves when its whole plan is done: exactly what the plan says, and nothing else changed. */
module InitPlan {
  import opened InitJournal

  /** Every step is done, none raises. */
  predicate AllDone(j: Journal, steps: seq<Step>)
    decreases |steps|
  {
    steps == [] || (Do(j, steps[0]).Done? && AllDone(Do(j, steps[0]).journal, steps[1..]))
  }

  /**
    A step is done exactly when nothing fails and its place is free: a directory is there already, or its parent is and
    nothing else; a file's place is no directory, and no file stands on the way to it.
   */
  lemma DoneExactly(j: Journal, step: Step)
    ensures var p := step.path;
            Do(j, step).Done? <==>
              if step.Make? then
                && (step.luck.Fine? || (!step.luck.Early? && IsDir(j.tree, p)))
                && (IsDir(j.tree, p) || (p !in j.tree && p != [] && IsDir(j.tree, Parent(p))))
              else
                && step.luck.Fine? && p != [] && !IsDir(j.tree, p)
                && forall i :: 0 <= i < |p| ==> !IsFile(j.tree, p[..i])
  {
  }

  /** Every identity in the tree was given out before. */
  predicate IdentitiesUsed(j: Journal) {
    forall p :: p in j.tree ==> j.tree[p].id < j.unused
  }

  /** What a step makes or writes gets an identity nothing had before. */
  lemma NewIdentities(j: Journal, step: Step, q: Path)
    requires IdentitiesUsed(j)
    ensures var next := Do(j, step).journal;
            && IdentitiesUsed(next)
            && (q in next.tree && (q !in j.tree || next.tree[q] != j.tree[q]) ==>
                  forall p :: p in j.tree ==> j.tree[p].id != next.tree[q].id)
  {
    var next := Do(j, step).journal;
    assert forall p :: p in next.tree && (p !in j.tree || next.tree[p] != j.tree[p]) ==>
      j.unused <= next.tree[p].id < next.unused;
  }

  /** This step writes the file. */
  predicate Writes(step: Step, p: Path) {
    step.Write? && step.path == p
  }

  /** The path leads to the place of the step. */
  predicate OnTheWay(step: Step, p: Path) {
    p <= step.path
  }

  lemma {:induction false} AncestorsAreOnTheWay(t: Tree, p: Path, id: nat, q: Path)
    ensures q in WithAncestors(t, p, id) && q !in t ==> q <= p
    decreases |p|
  {
    if p !in t && p != [] {
      AncestorsAreOnTheWay(t, Parent(p), id, q);
    }
  }

  /** What one finished step does to the tree. */
  lemma OneStep(j: Journal, step: Step, q: Path)
    requires Do(j, step).Done?
    ensures var now := Do(j, step).journal.tree;
            && (q in j.tree && !Writes(step, q) ==> q in now && now[q] == j.tree[q])
            && (q in now && q !in j.tree && !Writes(step, q) ==> now[q].Dir? && OnTheWay(step, q))
            && (step.Make? ==> IsDir(now, step.path))
            && (step.Write? ==>
                  && IsFile(now, step.path)
                  && now[step.path].text == step.text && now[step.path].mode == step.mode)
  {
    if step.Write? && !IsFile(j.tree, step.path) {
      AncestorsAreOnTheWay(j.tree, Parent(step.path), j.unused, q);
    }
  }

  /** A path no step writes stays what it was; if it is new, it is a directory on the way to some step's place. */
  lemma {:induction false} UnwrittenStays(j: Journal, steps: seq<Step>, q: Path)
    requires AllDone(j, steps) && forall k :: 0 <= k < |steps| ==> !Writes(steps[k], q)
    ensures var now := DoAll(j, steps).tree;
            && (q in j.tree ==> q in now && now[q] == j.tree[q])
            && (q in now && q !in j.tree ==>
                  now[q].Dir? && exists k :: 0 <= k < |steps| && OnTheWay(steps[k], q))
    decreases |steps|
  {
    hide Do;
    if steps != [] {
      var next := Do(j, steps[0]).journal;
      OneStep(j, steps[0], q);
      assert forall k :: 0 <= k < |steps| - 1 ==> steps[1..][k] == steps[k + 1];
      UnwrittenStays(next, steps[1..], q);
      var now := DoAll(j, steps).tree;
      if q in now && q !in next.tree {
        var k :| 0 <= k < |steps[1..]| && OnTheWay(steps[1..][k], q);
        assert OnTheWay(steps[k + 1], q);
      }
    }
  }

  /** The last step that writes a path decides its text and mode; a directory that was made is there. */
  lemma {:induction false} LastWriteStands(j: Journal, steps: seq<Step>, k: nat)
    requires AllDone(j, steps) && k < |steps|
    requires forall l :: k < l < |steps| ==> !Writes(steps[l], steps[k].path)
    ensures var now := DoAll(j, steps).tree;
            && (steps[k].Make? ==> IsDir(now, steps[k].path))
            && (steps[k].Write? ==>
                  && IsFile(now, steps[k].path)
                  && now[steps[k].path].text == steps[k].text && now[steps[k].path].mode == steps[k].mode)
    decreases |steps|
  {
    hide Do;
    var next := Do(j, steps[0]).journal;
    assert forall l :: 0 <= l < |steps| - 1 ==> steps[1..][l] == steps[l + 1];
    if k == 0 {
      OneStep(j, steps[0], steps[0].path);
      UnwrittenStays(next, steps[1..], steps[0].path);
    } else {
      LastWriteStands(next, steps[1..], k - 1);
    }
  }

  /** A step may not write what a step made: a directory stays one. */
  lemma {:induction false} MadeIsNotWritten(j: Journal, steps: seq<Step>, k: nat, l: nat)
    requires AllDone(j, steps) && k < l < |steps| && steps[k].Make?
    ensures !Writes(steps[l], steps[k].path)
    decreases |steps|
  {
    hide DoAll;
    var next := Do(j, steps[0]).journal;
    if k > 0 {
      MadeIsNotWritten(next, steps[1..], k - 1, l - 1);
    } else {
      OneStep(j, steps[0], steps[0].path);
      DirectoryBars(next, steps[1..], l - 1, steps[0].path);
    }
  }

  lemma {:induction false} DirectoryBars(j: Journal, steps: seq<Step>, l: nat, p: Path)
    requires AllDone(j, steps) && l < |steps| && IsDir(j.tree, p)
    ensures !Writes(steps[l], p)
    decreases |steps|
  {
    DoneExactly(j, steps[0]);
    if l > 0 {
      OneStep(j, steps[0], p);
      DirectoryBars(Do(j, steps[0]).journal, steps[1..], l - 1, p);
    }
  }

  /**
    When the whole plan is done, every path stands as its last write says, every directory of the plan is there, and
    everything else is as it was, but for new directories on the way to what the plan names.
   */
  lemma PlanIsApplied(j: Journal, steps: seq<Step>, q: Path)
    requires AllDone(j, steps)
    ensures var now := DoAll(j, steps).tree;
            && (forall k :: 0 <= k < |steps| && Writes(steps[k], q)
                            && (forall l :: k < l < |steps| ==> !Writes(steps[l], q)) ==>
                  IsFile(now, q) && now[q].text == steps[k].text && now[q].mode == steps[k].mode)
            && (forall k :: 0 <= k < |steps| && steps[k].Make? && steps[k].path == q ==> IsDir(now, q))
            && ((forall k :: 0 <= k < |steps| ==> !Writes(steps[k], q)) ==>
                  && (q in j.tree ==> q in now && now[q] == j.tree[q])
                  && (q in now && q !in j.tree ==>
                        now[q].Dir? && exists k :: 0 <= k < |steps| && OnTheWay(steps[k], q)))
  {
    hide DoAll;
    hide AllDone;
    forall k | 0 <= k < |steps| && steps[k].path == q && (forall l :: k < l < |steps| ==> !Writes(steps[l], q))
      ensures var now := DoAll(j, steps).tree;
              && (steps[k].Make? ==> IsDir(now, q))
              && (steps[k].Write? ==>
                    IsFile(now, q) && now[q].text == steps[k].text && now[q].mode == steps[k].mode)
    {
      LastWriteStands(j, steps, k);
    }
    forall k | 0 <= k < |steps| && steps[k].Make? && steps[k].path == q
      ensures IsDir(DoAll(j, steps).tree, q)
    {
      forall l | k < l < |steps|
        ensures !Writes(steps[l], q)
      {
        MadeIsNotWritten(j, steps, k, l);
      }
      LastWriteStands(j, steps, k);
    }
    if forall k :: 0 <= k < |steps| ==> !Writes(steps[k], q) {
      UnwrittenStays(j, steps, q);
    }
  }
}
