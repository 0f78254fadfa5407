/** A failure outside its retry policy is the end of its target, unless an operator decides otherwise. */
module FinalFailures {
  import opened Wrappers
  import opened Records
  import opened Durable
  import opened Protocol
  import opened Operations
  import opened Growth
  import opened Crash
  import opened Publication
  import opened Refinement
  import opened StoreRuns
  import opened Safety
  import opened Answers
  import opened OperatorAnswers

  /** An operator asks for another attempt of this target. */
  predicate AsksAgain(a: Action, t: Target) {
    && a.Call?
    && match a.op
       case ScheduleRecovery(u, _, _, _, _) => u == t
       case RecordRecovery(u, _, decision, _, _) => u == t && !decision.FailForGood?
       case _ => false
  }

  predicate Told(e: Event, t: Target) {
    e.ToldToRun? && e.target == t
  }

  predicate RestsFailed(d: Disk, t: Target) {
    Head(d, t).Some? && Head(d, t).value.status == Failed
  }

  /** On a failed target no operation but an operator's moves anything, and nobody is told to run. */
  lemma FailedAnswers(v: View, v': View, op: Operation, note: string, reply: Reply, t: Target)
    requires v.disk.manifest.Some? && RestsFailed(v.disk, t) && Tells(v, v', op, note, reply)
    requires !op.Initialize? && !op.Publish? && op.target == t
    requires !op.ScheduleRecovery? && (op.RecordRecovery? ==> op.decision.FailForGood?)
    ensures LastCommitted(v'.disk) == LastCommitted(v.disk)
    ensures op.Prepare? ==> !reply.Proceed?
  {
    hide LastCommitted;
    hide AwaitsDecision;
    hide Bound;
    if op.RecordRecovery? {
      assert RecordTells(v, v', t, op.from, op.decision, op.payload, op.receipt, note, reply);
    }
  }

  lemma FailedStep(actions: seq<Action>, a: Action, t: Target)
    requires RestsFailed(Run(START, actions).disk, t) && !AsksAgain(a, t)
    ensures var w, w' := Run(START, actions), Run(START, actions + [a]);
            && Head(w'.disk, t) == Head(w.disk, t)
            && w.log <= w'.log
            && forall k :: |w.log| <= k < |w'.log| ==> !Told(w'.log[k], t)
  {
    hide Perform;
    hide Accepts;
    hide LastCommitted;
    hide Tells;
    hide CommitsTo;
    var w := Run(START, actions);
    assert (actions + [a])[..|actions|] == actions;
    RunsRefineThePlainMap(actions, a);
    if a.Call? && a.store in w.stores {
      var v := ViewOf(w, a.store, a.quota);
      var (v', reply) := Perform(v, a.op, a.note);
      HeadNeedsManifest(w.disk, t);
      if !Accepts(w.disk) {
        RejectedStaysRejected(v, a.op, a.note);
      } else {
        EveryCallIsAnswered(actions, a.store, a.op, a.note, a.quota);
        if !a.op.Initialize? && !a.op.Publish? {
          if a.op.target == t {
            FailedAnswers(v, v', a.op, a.note, reply, t);
          } else {
            ElsewhereSame(w.disk, v'.disk, a.op, t);
          }
        }
      }
    }
  }

  lemma HeadNeedsManifest(d: Disk, t: Target)
    requires Head(d, t).Some?
    ensures d.manifest.Some?
  {
  }

  lemma ElsewhereSame(d: Disk, d': Disk, op: Operation, t: Target)
    requires !op.Initialize? && !op.Publish? && op.target != t
    requires CallCommits(LastCommitted(d), LastCommitted(d'), op)
    ensures Head(d', t) == Head(d, t)
  {
    hide LastCommitted;
  }

  /** A failed target stays as it is, and no executor is told to run it, until an operator asks again. */
  lemma {:induction false} FailedStaysFailed(first: seq<Action>, more: seq<Action>, t: Target)
    requires RestsFailed(Run(START, first).disk, t)
    requires forall i :: 0 <= i < |more| ==> !AsksAgain(more[i], t)
    ensures var w, w' := Run(START, first), Run(START, first + more);
            && Head(w'.disk, t) == Head(w.disk, t)
            && w.log <= w'.log
            && forall k :: |w.log| <= k < |w'.log| ==> !Told(w'.log[k], t)
    decreases |more|
  {
    hide Run;
    hide Head;
    hide AsksAgain;
    if more == [] {
      assert first + more == first;
    } else {
      var almost := more[..|more| - 1];
      assert first + more == first + almost + [more[|more| - 1]];
      FailedStaysFailed(first, almost, t);
      FailedStep(first + almost, more[|more| - 1], t);
    }
  }

  /**
    A recorded failure that its policy does not list, or that used up its attempts, leaves the target failed at that
    attempt; without an operator it stays so in every continuation, and nobody is told to run it again.
   */
  lemma FailureOutsideThePolicyIsFinal(first: seq<Action>, s: StoreId, t: Target, policy: Option<Policy>,
                                       kind: Option<string>, note: string, quota: nat, more: seq<Action>)
    requires s in Run(START, first).stores && Accepts(Run(START, first).disk)
    requires var reply := Perform(ViewOf(Run(START, first), s, quota), RecordFailure(t, policy, kind), note).1;
             reply == AlreadyFailed || reply == Pending
    requires var h := Head(Run(START, first).disk, t);
             h.Some? && (policy.None? || h.value.attempt >= policy.value.maxAttempts || kind.None?
                         || kind.value !in policy.value.retryOn)
    requires forall i :: 0 <= i < |more| ==> !AsksAgain(more[i], t)
    ensures var w := Run(START, first);
            var failing := Call(s, RecordFailure(t, policy, kind), note, quota);
            var w' := Run(START, first + [failing] + more);
            && Head(w'.disk, t) == Some(Head(w.disk, t).value.(status := Failed, owner := None, note := note))
            && w.log <= w'.log
            && forall k :: |w.log| <= k < |w'.log| ==> !Told(w'.log[k], t)
  {
    hide Perform;
    hide Accepts;
    hide LastCommitted;
    var op := RecordFailure(t, policy, kind);
    var failing := Call(s, op, note, quota);
    var w := Run(START, first);
    assert (first + [failing])[..|first|] == first;
    EveryCallIsAnswered(first, s, op, note, quota);
    FailedStaysFailed(first + [failing], more, t);
  }
}
