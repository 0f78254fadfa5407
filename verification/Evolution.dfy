/**
  Resumable prompt evolution (kigumi/optimize.py) as a function of what was saved before.

  Task, metric and reflection are deterministic functions.  An example is its own digest, and so is
  a candidate text, so a judgment is filed under the pair of them.  Draw `k` is the k-th number of
  the seeded generator; a completed round uses up exactly one.
 */
module Evolution {
  import opened Wrappers
  import opened Pareto

  datatype Judgment = Judgment(score: real, feedback: string, tags: seq<string>)

  type Key = (string, ExampleId)
  type Judged = map<Key, Judgment>

  type Draw = r: real | 0.0 <= r < 1.0 witness 0.0

  /**
    `judge` runs a text on an example and scores the output (an error is a judgment too); `reflect` renders the
    reflection prompt, calls the model, and answers the candidate text if one comes back inside the
    fence, within the length budget and without a leak.
   */
  datatype Experiment = Experiment(
    template: string,
    trainIds: seq<ExampleId>,
    valIds: seq<ExampleId>,
    minibatch: nat,
    judge: (string, ExampleId) -> Judgment,
    reflect: (string, seq<(ExampleId, Judgment)>) -> Option<string>,
    draw: nat -> Draw)

  /** What the source demands of its caller. */
  predicate Proper(e: Experiment) {
    e.trainIds != [] && e.valIds != [] && e.minibatch > 0
  }

  /** The state file, and the same variables in memory. */
  datatype State = State(candidates: Pool, calls: nat, done: nat, judged: Judged)

  type Cap = Option<nat>

  predicate Capped(cap: Cap, calls: nat) {
    cap.Some? && calls >= cap.value
  }

  predicate Within(small: Cap, large: Cap) {
    large.None? || (small.Some? && small.value <= large.value)
  }

  // ----------------------------------------------------------------- scoring

  datatype Scored = Scored(scores: map<ExampleId, real>, calls: nat, judged: Judged, complete: bool)

  /** `score_items`. */
  function Score(e: Experiment, cap: Cap, text: string, ids: seq<ExampleId>,
                 scores: map<ExampleId, real>, calls: nat, judged: Judged): Scored
    decreases |ids|
  {
    if ids == [] then Scored(scores, calls, judged, true)
    else
      var key := (text, ids[0]);
      if key in judged then
        Score(e, cap, text, ids[1..], scores[ids[0] := judged[key].score], calls, judged)
      else if Capped(cap, calls) then Scored(scores, calls, judged, false)
      else
        var j := e.judge(text, ids[0]);
        Score(e, cap, text, ids[1..], scores[ids[0] := j.score], calls + 1, judged[key := j])
  }

  // ------------------------------------------------------------------ rounds

  function Batch(e: Experiment, round: nat): seq<ExampleId>
    requires Proper(e)
  {
    var start := (round * e.minibatch) % |e.trainIds|;
    seq(e.minibatch, k requires 0 <= k < e.minibatch => e.trainIds[(start + k) % |e.trainIds|])
  }

  predicate AllPerfect(scores: map<ExampleId, real>, ids: seq<ExampleId>) {
    forall i :: 0 <= i < |ids| ==> ScoreOf(scores, ids[i]) == 1.0
  }

  predicate NoWorse(left: map<ExampleId, real>, right: map<ExampleId, real>, ids: seq<ExampleId>) {
    forall i :: 0 <= i < |ids| ==> ScoreOf(left, ids[i]) >= ScoreOf(right, ids[i])
  }

  /** What `_merge_feedback` is given: the judgments of the parent on the batch. */
  function Feedback(text: string, batch: seq<ExampleId>, judged: Judged): seq<(ExampleId, Judgment)> {
    seq(|batch|, k requires 0 <= k < |batch| =>
      (batch[k], if (text, batch[k]) in judged then judged[(text, batch[k])] else Judgment(0.0, "", [])))
  }

  /** How a round ends: completed and saved, cut short and saved, or cut short with nothing written. */
  datatype Ending = Completed | Cut | CutUnsaved

  datatype Rounded = Rounded(state: State, ending: Ending)

  /** The candidate on trial, stage after stage. */
  function Trial(e: Experiment, cap: Cap, s: State, parentIndex: nat, text: string): Rounded
    requires Proper(e) && parentIndex < |s.candidates|
  {
    var parent := s.candidates[parentIndex];
    var batch := Batch(e, s.done);
    var next := s.done + 1;
    var first := Score(e, cap, text, batch, map[], s.calls, s.judged);
    var s1 := s.(calls := first.calls, judged := first.judged);
    if !first.complete then Rounded(s1, Cut)
    else if !NoWorse(first.scores, parent.train, batch) then Rounded(s1.(done := next), Completed)
    else
      var full := Score(e, cap, text, e.trainIds, first.scores, first.calls, first.judged);
      var s2 := s.(calls := full.calls, judged := full.judged);
      if !full.complete then Rounded(s2, Cut)
      else
        var val := Score(e, cap, text, e.valIds, map[], full.calls, full.judged);
        var s3 := s.(calls := val.calls, judged := val.judged);
        if !val.complete then Rounded(s3, Cut)
        else if Mean(val.scores, e.valIds) < Mean(parent.val, e.valIds) then Rounded(s3.(done := next), Completed)
        else
          var c := Candidate(text, Some(parentIndex), full.scores, val.scores, next);
          Rounded(s3.(candidates := Pruned(s.candidates + [c], e.valIds), done := next), Completed)
  }

  /** One round, entered below the cap. */
  function Round(e: Experiment, cap: Cap, s: State): Rounded
    requires Proper(e) && s.candidates != []
  {
    var i := Parent(s.candidates, e.valIds, e.draw(s.done));
    var parent := s.candidates[i];
    var batch := Batch(e, s.done);
    var scored := Score(e, cap, parent.text, batch, parent.train, s.calls, s.judged);
    var parent' := parent.(train := scored.scores);
    var s1 := s.(candidates := s.candidates[i := parent'], calls := scored.calls, judged := scored.judged);
    if !scored.complete then Rounded(s1, Cut)
    else if AllPerfect(parent'.train, batch) then Rounded(s1.(done := s.done + 1), Completed)
    else if Capped(cap, s1.calls) then Rounded(s1, CutUnsaved)
    else
      var proposal := e.reflect(parent.text, Feedback(parent.text, batch, s1.judged));
      if proposal.None? then Rounded(s1.(done := s.done + 1), Completed)
      else Trial(e, cap, s1, i, proposal.value)
  }

  /** `_result`, and what the state file holds afterwards. */
  datatype Finished = Finished(state: State, file: Option<State>)

  function Loop(e: Experiment, cap: Cap, rounds: nat, s: State, file: Option<State>): Finished
    requires Proper(e) && s.candidates != []
    decreases if rounds > s.done then rounds - s.done else 0
  {
    if s.done >= rounds || Capped(cap, s.calls) then Finished(s, file)
    else
      RoundKeepsPool(e, cap, s);
      var r := Round(e, cap, s);
      match r.ending
      case Completed => Loop(e, cap, rounds, r.state, Some(r.state))
      case Cut => Finished(r.state, Some(r.state))
      case CutUnsaved => Finished(r.state, file)
  }

  lemma {:induction false} RoundKeepsPool(e: Experiment, cap: Cap, s: State)
    requires Proper(e) && s.candidates != []
    ensures var r := Round(e, cap, s);
            && r.state.candidates != []
            && r.state.done == (if r.ending.Completed? then s.done + 1 else s.done)
  {
    hide Score;
    hide Parent;
    hide Mean;
    hide Pruned;
    forall c: Candidate, pool: Pool
      ensures Pruned(pool + [c], e.valIds) != []
    {
      DroppedIsDominated(pool + [c], e.valIds, c);
    }
  }

  function Fresh(e: Experiment): State {
    State([Candidate(e.template, None, map[], map[], 0)], 0, 0, map[])
  }

  /** The baseline of the first candidate, then the rounds. */
  function Resume(e: Experiment, cap: Cap, rounds: nat, file: Option<State>): Finished
    requires Proper(e)
  {
    var s := if file.Some? && file.value.candidates != [] then file.value else Fresh(e);
    var seed := s.candidates[0];
    if HasAll(seed.val, e.valIds) then Loop(e, cap, rounds, s, file)
    else
      var scored := Score(e, cap, seed.text, e.valIds, seed.val, s.calls, s.judged);
      var s1 := s.(candidates := s.candidates[0 := seed.(val := scored.scores)], calls := scored.calls,
                   judged := scored.judged);
      if !scored.complete then Finished(s1, Some(s1)) else Loop(e, cap, rounds, s1, file)
  }

  // ------------------------------------------------- scoring under two caps

  /** Judgments and calls only grow, and never past a cap that was not reached before. */
  lemma {:induction false} ScoreGrows(e: Experiment, cap: Cap, text: string, ids: seq<ExampleId>,
                                      scores: map<ExampleId, real>, calls: nat, judged: Judged)
    ensures var r := Score(e, cap, text, ids, scores, calls, judged);
            && r.calls >= calls
            && (forall k :: k in judged ==> k in r.judged && r.judged[k] == judged[k])
            && (!r.complete ==> Capped(cap, r.calls) && (Capped(cap, calls) ==> r.calls == calls))
            && (cap.Some? && calls <= cap.value ==> r.calls <= cap.value)
            && (r.complete ==> forall i :: 0 <= i < |ids| ==> (text, ids[i]) in r.judged)
            && (forall k :: k in r.scores ==> k in scores || (text, k) in r.judged)
            && (forall k :: k in scores ==> k in r.scores)
            && (r.complete ==> HasAll(r.scores, ids))
            && (!r.complete ==> exists i :: 0 <= i < |ids| && (text, ids[i]) !in r.judged)
    decreases |ids|
  {
    if ids != [] {
      var key := (text, ids[0]);
      if key in judged {
        ScoreGrows(e, cap, text, ids[1..], scores[ids[0] := judged[key].score], calls, judged);
      } else if !Capped(cap, calls) {
        var j := e.judge(text, ids[0]);
        ScoreGrows(e, cap, text, ids[1..], scores[ids[0] := j.score], calls + 1, judged[key := j]);
      }
    }
  }

  /** Scoring that completes under a small cap goes the same way under a larger one. */
  lemma {:induction false} ScoreUnderMore(e: Experiment, small: Cap, large: Cap, text: string, ids: seq<ExampleId>,
                                          scores: map<ExampleId, real>, calls: nat, judged: Judged)
    requires Within(small, large)
    ensures var r := Score(e, small, text, ids, scores, calls, judged);
            r.complete ==> Score(e, large, text, ids, scores, calls, judged) == r
    decreases |ids|
  {
    if ids != [] {
      var key := (text, ids[0]);
      if key in judged {
        ScoreUnderMore(e, small, large, text, ids[1..], scores[ids[0] := judged[key].score], calls, judged);
      } else if !Capped(small, calls) {
        var j := e.judge(text, ids[0]);
        ScoreUnderMore(e, small, large, text, ids[1..], scores[ids[0] := j.score], calls + 1, judged[key := j]);
      }
    }
  }

  /** A score that was set from a judgment stays what it is. */
  lemma {:induction false} ScoreKeeps(e: Experiment, cap: Cap, text: string, ids: seq<ExampleId>,
                                      scores: map<ExampleId, real>, calls: nat, judged: Judged, k: ExampleId)
    requires (text, k) in judged && k in scores && scores[k] == judged[(text, k)].score
    ensures var r := Score(e, cap, text, ids, scores, calls, judged);
            k in r.scores && r.scores[k] == scores[k]
    decreases |ids|
  {
    if ids != [] {
      var key := (text, ids[0]);
      if key in judged {
        ScoreKeeps(e, cap, text, ids[1..], scores[ids[0] := judged[key].score], calls, judged, k);
      } else if !Capped(cap, calls) {
        var j := e.judge(text, ids[0]);
        ScoreKeeps(e, cap, text, ids[1..], scores[ids[0] := j.score], calls + 1, judged[key := j], k);
      }
    }
  }

  predicate Extends(judged: Judged, more: Judged) {
    forall k :: k in judged ==> k in more && more[k] == judged[k]
  }

  /** Repeating a completed scoring with at least its judgments at hand calls nothing and gives the same scores. */
  lemma {:induction false} ScoreAgain(e: Experiment, cap: Cap, other: Cap, text: string, ids: seq<ExampleId>,
                                      scores: map<ExampleId, real>, calls: nat, judged: Judged,
                                      scores': map<ExampleId, real>, calls': nat, judged': Judged)
    requires var r := Score(e, cap, text, ids, scores, calls, judged);
             r.complete && Extends(r.judged, judged') && (scores' == scores || scores' == r.scores)
    ensures var r := Score(e, cap, text, ids, scores, calls, judged);
            Score(e, other, text, ids, scores', calls', judged') == Scored(r.scores, calls', judged', true)
    decreases |ids|
  {
    if ids != [] {
      var r := Score(e, cap, text, ids, scores, calls, judged);
      var key := (text, ids[0]);
      var j := if key in judged then judged[key] else e.judge(text, ids[0]);
      var judged1 := if key in judged then judged else judged[key := j];
      var calls1 := if key in judged then calls else calls + 1;
      var scores1 := scores[ids[0] := j.score];
      ScoreGrows(e, cap, text, ids[1..], scores1, calls1, judged1);
      ScoreKeeps(e, cap, text, ids[1..], scores1, calls1, judged1, ids[0]);
      assert key in judged' && judged'[key] == j;
      assert scores' == r.scores ==> scores'[ids[0] := j.score] == scores';
      ScoreAgain(e, cap, other, text, ids[1..], scores1, calls1, judged1, scores'[ids[0] := j.score], calls', judged');
    }
  }

  /** Resuming a scoring the small cap cut short ends where scoring in one go under the large cap ends. */
  lemma {:induction false} ScoreResumes(e: Experiment, small: Cap, large: Cap, text: string, ids: seq<ExampleId>,
                                        scores: map<ExampleId, real>, calls: nat, judged: Judged,
                                        scores': map<ExampleId, real>)
    requires Within(small, large)
    requires var r := Score(e, small, text, ids, scores, calls, judged);
             !r.complete && (scores' == scores || scores' == r.scores)
    ensures var r := Score(e, small, text, ids, scores, calls, judged);
            Score(e, large, text, ids, scores', r.calls, r.judged) == Score(e, large, text, ids, scores, calls, judged)
    decreases |ids|
  {
    var r := Score(e, small, text, ids, scores, calls, judged);
    var key := (text, ids[0]);
    if key in judged || !Capped(small, calls) {
      var j := if key in judged then judged[key] else e.judge(text, ids[0]);
      var judged1 := if key in judged then judged else judged[key := j];
      var calls1 := if key in judged then calls else calls + 1;
      var scores1 := scores[ids[0] := j.score];
      ScoreGrows(e, small, text, ids[1..], scores1, calls1, judged1);
      ScoreKeeps(e, small, text, ids[1..], scores1, calls1, judged1, ids[0]);
      assert key in r.judged && r.judged[key] == j;
      assert scores' == r.scores ==> scores'[ids[0] := j.score] == scores';
      ScoreResumes(e, small, large, text, ids[1..], scores1, calls1, judged1, scores'[ids[0] := j.score]);
    }
  }

  // -------------------------------------------------- rounds under two caps

  /** The parent depends on nothing but validation scores. */
  lemma {:induction false} BestOnIgnoresTrain(a: Pool, b: Pool, id: ExampleId)
    requires a != [] && |a| == |b| && forall i :: 0 <= i < |a| ==> a[i].val == b[i].val
    ensures BestOn(a, id) == BestOn(b, id)
  {
    if |a| > 1 {
      BestOnIgnoresTrain(a[..|a| - 1], b[..|b| - 1], id);
    }
  }

  lemma {:induction false} WeightIgnoresTrain(a: Pool, b: Pool, i: nat, ids: seq<ExampleId>)
    requires i < |a| && |a| == |b| && forall k :: 0 <= k < |a| ==> a[k].val == b[k].val
    ensures Weight(a, i, ids) == Weight(b, i, ids)
    decreases |ids|
  {
    if ids != [] {
      WeightIgnoresTrain(a, b, i, ids[..|ids| - 1]);
      BestOnIgnoresTrain(a, b, ids[|ids| - 1]);
    }
  }

  lemma {:induction false} ParentIgnoresTrain(a: Pool, b: Pool, ids: seq<ExampleId>, draw: Draw)
    requires a != [] && ids != [] && |a| == |b| && forall k :: 0 <= k < |a| ==> a[k].val == b[k].val
    ensures Parent(a, ids, draw) == Parent(b, ids, draw)
  {
    forall i | 0 <= i < |a|
      ensures Weights(a, ids)[i] == Weights(b, ids)[i]
    {
      WeightIgnoresTrain(a, b, i, ids);
    }
    assert Weights(a, ids) == Weights(b, ids);
  }

  /** What every trial does to calls and judgments. */
  lemma {:induction false} TrialGrows(e: Experiment, cap: Cap, s: State, i: nat, text: string)
    requires Proper(e) && i < |s.candidates|
    ensures var r := Trial(e, cap, s, i, text);
            && r.state.calls >= s.calls && Extends(s.judged, r.state.judged)
            && (r.ending.Cut?
                ==> Capped(cap, r.state.calls) && r.state == s.(calls := r.state.calls, judged := r.state.judged))
            && !r.ending.CutUnsaved?
            && (cap.Some? && s.calls <= cap.value ==> r.state.calls <= cap.value)
  {
    hide Score;
    hide Mean;
    hide Pruned;
    var batch := Batch(e, s.done);
    ScoreGrows(e, cap, text, batch, map[], s.calls, s.judged);
    var first := Score(e, cap, text, batch, map[], s.calls, s.judged);
    ScoreGrows(e, cap, text, e.trainIds, first.scores, first.calls, first.judged);
    var full := Score(e, cap, text, e.trainIds, first.scores, first.calls, first.judged);
    ScoreGrows(e, cap, text, e.valIds, map[], full.calls, full.judged);
  }

  lemma {:induction false} TrialUnderMore(e: Experiment, small: Cap, large: Cap, s: State, i: nat, text: string)
    requires Proper(e) && i < |s.candidates| && Within(small, large)
    ensures var r := Trial(e, small, s, i, text);
            r.ending.Completed? ==> Trial(e, large, s, i, text) == r
  {
    hide Score;
    hide Mean;
    hide Pruned;
    var batch := Batch(e, s.done);
    ScoreUnderMore(e, small, large, text, batch, map[], s.calls, s.judged);
    var first := Score(e, small, text, batch, map[], s.calls, s.judged);
    ScoreUnderMore(e, small, large, text, e.trainIds, first.scores, first.calls, first.judged);
    var full := Score(e, small, text, e.trainIds, first.scores, first.calls, first.judged);
    ScoreUnderMore(e, small, large, text, e.valIds, map[], full.calls, full.judged);
  }

  lemma {:induction false} TrialResumes(e: Experiment, small: Cap, large: Cap, s: State, i: nat, text: string)
    requires Proper(e) && i < |s.candidates| && Within(small, large)
    requires Trial(e, small, s, i, text).ending.Cut?
    ensures Trial(e, large, Trial(e, small, s, i, text).state, i, text) == Trial(e, large, s, i, text)
  {
    hide Score;
    hide Mean;
    hide Pruned;
    var r := Trial(e, small, s, i, text).state;
    var batch := Batch(e, s.done);
    var first := Score(e, small, text, batch, map[], s.calls, s.judged);
    if !first.complete {
      ScoreResumes(e, small, large, text, batch, map[], s.calls, s.judged, map[]);
    } else {
      var full := Score(e, small, text, e.trainIds, first.scores, first.calls, first.judged);
      ScoreUnderMore(e, small, large, text, batch, map[], s.calls, s.judged);
      ScoreGrows(e, small, text, e.trainIds, first.scores, first.calls, first.judged);
      if !full.complete {
        ScoreAgain(e, small, large, text, batch, map[], s.calls, s.judged, map[], r.calls, r.judged);
        ScoreResumes(e, small, large, text, e.trainIds, first.scores, first.calls, first.judged, first.scores);
      } else {
        ScoreGrows(e, small, text, e.valIds, map[], full.calls, full.judged);
        ScoreUnderMore(e, small, large, text, e.trainIds, first.scores, first.calls, first.judged);
        ScoreAgain(e, small, large, text, batch, map[], s.calls, s.judged, map[], r.calls, r.judged);
        ScoreAgain(e, small, large, text, e.trainIds, first.scores, first.calls, first.judged, first.scores, r.calls,
                   r.judged);
        ScoreResumes(e, small, large, text, e.valIds, map[], full.calls, full.judged, map[]);
      }
    }
  }

  lemma {:induction false} RoundUnderMore(e: Experiment, small: Cap, large: Cap, s: State)
    requires Proper(e) && s.candidates != [] && Within(small, large)
    ensures var r := Round(e, small, s);
            r.ending.Completed? ==> Round(e, large, s) == r
  {
    hide Score;
    hide Trial;
    hide Parent;
    var i := Parent(s.candidates, e.valIds, e.draw(s.done));
    var parent := s.candidates[i];
    var batch := Batch(e, s.done);
    ScoreUnderMore(e, small, large, parent.text, batch, parent.train, s.calls, s.judged);
    var scored := Score(e, small, parent.text, batch, parent.train, s.calls, s.judged);
    var s1 := s.(candidates := s.candidates[i := parent.(train := scored.scores)], calls := scored.calls,
                 judged := scored.judged);
    var proposal := e.reflect(parent.text, Feedback(parent.text, batch, s1.judged));
    if proposal.Some? {
      TrialUnderMore(e, small, large, s1, i, proposal.value);
    }
  }

  lemma {:induction false} SameFeedback(text: string, batch: seq<ExampleId>, judged: Judged, more: Judged)
    requires Extends(judged, more) && forall k :: 0 <= k < |batch| ==> (text, batch[k]) in judged
    ensures Feedback(text, batch, more) == Feedback(text, batch, judged)
  {
  }

  /** A round the small cap cut short, entered again with the large cap, goes as if never cut. */
  lemma {:induction false} RoundResumes(e: Experiment, small: Cap, large: Cap, s: State)
    requires Proper(e) && s.candidates != [] && Within(small, large)
    requires Round(e, small, s).ending.Cut? && !Capped(large, Round(e, small, s).state.calls)
    ensures Round(e, small, s).state.candidates != []
    ensures Round(e, large, Round(e, small, s).state) == Round(e, large, s)
  {
    hide Score;
    hide Trial;
    hide Parent;
    hide Feedback;
    var r := Round(e, small, s).state;
    var i := Parent(s.candidates, e.valIds, e.draw(s.done));
    var parent := s.candidates[i];
    var batch := Batch(e, s.done);
    var scored := Score(e, small, parent.text, batch, parent.train, s.calls, s.judged);
    var s1 := s.(candidates := s.candidates[i := parent.(train := scored.scores)], calls := scored.calls,
                 judged := scored.judged);
    ScoreGrows(e, small, parent.text, batch, parent.train, s.calls, s.judged);
    ParentIgnoresTrain(s.candidates, s1.candidates, e.valIds, e.draw(s.done));
    if !scored.complete {
      ScoreResumes(e, small, large, parent.text, batch, parent.train, s.calls, s.judged, scored.scores);
      var again := Score(e, large, parent.text, batch, parent.train, s.calls, s.judged);
      assert s1.candidates[i := s1.candidates[i].(train := again.scores)]
             == s.candidates[i := parent.(train := again.scores)];
    } else {
      var proposal := e.reflect(parent.text, Feedback(parent.text, batch, s1.judged));
      TrialGrows(e, small, s1, i, proposal.value);
      ScoreUnderMore(e, small, large, parent.text, batch, parent.train, s.calls, s.judged);
      ScoreAgain(e, small, large, parent.text, batch, parent.train, s.calls, s.judged, scored.scores, r.calls,
                 r.judged);
      SameFeedback(parent.text, batch, s1.judged, r.judged);
      TrialResumes(e, small, large, s1, i, proposal.value);
      assert r.candidates[i := r.candidates[i].(train := scored.scores)] == r.candidates;
    }
  }
}
