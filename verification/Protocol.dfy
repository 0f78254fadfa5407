/**
  The life of one target as the sequence of its committed snapshots (kigumi/_runstate.py):
  which snapshot may follow which, and what that implies for every later snapshot.
 */
module Protocol {
  import opened Wrappers
  import opened Records

  /** The state `_start_attempt` builds. */
  predicate Fresh(b: Body) {
    && b.status.Running? && !b.effect && b.owner.Some? && b.attempt >= 1
    && b.candidate.None? && b.artifact.None? && b.recovery.None? && !b.resolved
  }

  /** What every committed snapshot satisfies by itself. */
  predicate Shape(b: Body) {
    && b.attempt >= 1
    && (b.status.Running? ==> b.owner.Some?)
    && (b.owner.Some? ==> b.status.Running? || b.status.Ambiguous?)
    && (b.candidate.Some? <==> b.status.SuccessCandidate? || b.status.Completed?)
    && (b.recovery.Some? ==> b.status.RetryScheduled?)
    && (b.status.RetryScheduled? ==> b.nextAttempt == b.attempt || b.nextAttempt == b.attempt + 1)
  }

  /** Snapshot `n` may be committed directly after snapshot `s`. */
  predicate Edge(s: Body, n: Body) {
    && n.target == s.target
    && n.identity == s.identity
    && Shape(n)
    && match s.status
       case Running =>
         && n.attempt == s.attempt
         && (match n.status
             case Running => n.effect || (!s.effect && Fresh(n))
             case CheckpointPending => true
             case SuccessCandidate => true
             case Failed => true
             case RetryScheduled => n.nextAttempt == s.attempt + 1
             case Ambiguous => s.effect
             case Completed => false)
       case SuccessCandidate => n.status.Completed? && n.attempt == s.attempt && n.candidate == s.candidate
       case RetryScheduled => Fresh(n) && n.attempt == s.nextAttempt
       case CheckpointPending => Fresh(n) && n.attempt == s.attempt
       case Ambiguous =>
         && n.attempt == s.attempt
         && (n.status.Ambiguous? || n.status.Failed? || (n.status.RetryScheduled? && n.nextAttempt == s.attempt + 1))
       case Failed => n.status.RetryScheduled? && n.attempt == s.attempt + 1 && n.nextAttempt == n.attempt
       case Completed => false
  }

  predicate Lawful(h: seq<Body>) {
    && (|h| > 0 ==> Fresh(h[0]) && h[0].attempt == 1 && Shape(h[0]))
    && forall i :: 0 < i < |h| ==> Edge(h[i - 1], h[i])
  }

  lemma ShapeOf(h: seq<Body>, i: nat)
    requires Lawful(h) && i < |h|
    ensures Shape(h[i])
  {
    if i > 0 {
      assert Edge(h[i - 1], h[i]);
    }
  }

  /** Attempt numbers along a chain never fall and rise by at most one. */
  lemma {:induction false} AttemptsRiseByOne(h: seq<Body>, i: nat, j: nat)
    requires Lawful(h) && i <= j < |h|
    ensures h[i].attempt <= h[j].attempt <= h[i].attempt + (j - i)
    decreases j - i
  {
    if i < j {
      AttemptsRiseByOne(h, i, j - 1);
      ShapeOf(h, j - 1);
      assert Edge(h[j - 1], h[j]);
    }
  }

  /** Crossing the side-effect boundary of attempt `n`. */
  predicate Crossed(b: Body, n: int) {
    b.status.Running? && b.effect && b.attempt == n
  }

  /** A snapshot under which an executor has been told to run attempt `n`. */
  predicate Runs(b: Body, n: int) {
    b.status.Running? && !b.effect && b.attempt == n
  }

  predicate Checkpointed(b: Body, n: int) {
    b.status.CheckpointPending? && b.attempt == n
  }

  /** Attempt `n` has started its side effect and may not be run again. */
  predicate Spent(b: Body, n: int) {
    || b.attempt > n
    || (b.attempt == n && match b.status
                          case Running => b.effect
                          case RetryScheduled => b.nextAttempt == n + 1
                          case CheckpointPending => false
                          case _ => true)
  }

  lemma {:induction false} SpentLasts(h: seq<Body>, n: int, i: nat, j: nat)
    requires Lawful(h) && i <= j < |h| && Spent(h[i], n)
    ensures Spent(h[j], n) || exists k :: i < k <= j && Checkpointed(h[k], n)
    decreases j - i
  {
    if i < j {
      SpentLasts(h, n, i, j - 1);
      ShapeOf(h, j - 1);
      assert Edge(h[j - 1], h[j]);
      if Spent(h[j - 1], n) && !Spent(h[j], n) {
        assert Checkpointed(h[j], n);
      }
    }
  }

  /** After the boundary of attempt `n`, attempt `n` runs again only behind a checkpoint of attempt `n`. */
  lemma AtMostOncePerAttempt(h: seq<Body>, n: int, i: nat, j: nat)
    requires Lawful(h) && i < j < |h|
    requires Crossed(h[i], n) && Runs(h[j], n)
    ensures exists k :: i < k < j && Checkpointed(h[k], n)
  {
    SpentLasts(h, n, i, j);
  }

  /** A completed target never leaves completed. */
  lemma CompletedIsLast(h: seq<Body>, i: nat)
    requires Lawful(h) && i < |h| && h[i].status.Completed?
    ensures i == |h| - 1
  {
    assert i + 1 < |h| ==> Edge(h[i], h[i + 1]);
  }
}
