/**
  What a round of prompt evolution does to the pool, said by the judge, the reflection and the batch alone, and what
  that means for the pool a run ends with.
 */
module Admission {
  import opened Wrappers
  import opened Pareto
  import opened Evolution
  import opened Resumption

  // -------------------------------------------------------- honest scores

  /** The scores the judge gives a text on some examples. */
  function Verdicts(e: Experiment, text: string, ids: seq<ExampleId>): map<ExampleId, real> {
    map id | id in ids :: e.judge(text, id).score
  }

  predicate HonestJudged(e: Experiment, judged: Judged) {
    forall k :: k in judged ==> judged[k] == e.judge(k.0, k.1)
  }

  predicate HonestScores(e: Experiment, text: string, scores: map<ExampleId, real>) {
    forall id :: id in scores ==> scores[id] == e.judge(text, id).score
  }

  /** Every judgment on file and every score in the pool is the judge's. */
  predicate Honest(e: Experiment, s: State) {
    && HonestJudged(e, s.judged)
    && forall i :: 0 <= i < |s.candidates| ==>
         && HonestScores(e, s.candidates[i].text, s.candidates[i].train)
         && HonestScores(e, s.candidates[i].text, s.candidates[i].val)
  }

  /** A scoring that completes sets exactly the judge's scores of its examples. */
  lemma {:induction false} ScoreIsJudging(e: Experiment, cap: Cap, text: string, ids: seq<ExampleId>,
                                          scores: map<ExampleId, real>, calls: nat, judged: Judged)
    requires HonestJudged(e, judged)
    ensures var r := Score(e, cap, text, ids, scores, calls, judged);
            && HonestJudged(e, r.judged)
            && (r.complete ==> r.scores == scores + Verdicts(e, text, ids))
            && (HonestScores(e, text, scores) ==> HonestScores(e, text, r.scores))
    decreases |ids|
  {
    if ids != [] {
      var key := (text, ids[0]);
      var j := e.judge(text, ids[0]);
      var scores1 := scores[ids[0] := j.score];
      assert scores1 + Verdicts(e, text, ids[1..]) == scores + Verdicts(e, text, ids);
      if key in judged {
        ScoreIsJudging(e, cap, text, ids[1..], scores1, calls, judged);
      } else if !Capped(cap, calls) {
        ScoreIsJudging(e, cap, text, ids[1..], scores1, calls + 1, judged[key := j]);
      }
    } else {
      assert scores + Verdicts(e, text, ids) == scores;
    }
  }

  lemma {:induction false} SameValues(a: map<ExampleId, real>, b: map<ExampleId, real>, ids: seq<ExampleId>)
    requires forall i :: 0 <= i < |ids| ==> ids[i] in a && ids[i] in b && a[ids[i]] == b[ids[i]]
    ensures Values(a, ids) == Values(b, ids)
    decreases |ids|
  {
    if ids != [] {
      SameValues(a, b, ids[..|ids| - 1]);
    }
  }

  // ------------------------------------------------------------- one round

  /** The mean the judge gives a text on the validation examples. */
  function JudgedMean(e: Experiment, text: string): real {
    Mean(Verdicts(e, text, e.valIds), e.valIds)
  }

  /** What the reflection is shown: each example of the batch with the judge's verdict on the parent. */
  function Lessons(e: Experiment, text: string, batch: seq<ExampleId>): seq<(ExampleId, Judgment)> {
    seq(|batch|, k requires 0 <= k < |batch| => (batch[k], e.judge(text, batch[k])))
  }

  predicate Flawless(e: Experiment, text: string, batch: seq<ExampleId>) {
    forall k :: 0 <= k < |batch| ==> e.judge(text, batch[k]).score == 1.0
  }

  predicate HoldsUp(e: Experiment, text: string, parent: string, batch: seq<ExampleId>) {
    forall k :: 0 <= k < |batch| ==> e.judge(text, batch[k]).score >= e.judge(parent, batch[k]).score
  }

  /** The proposal for this parent and batch, if it passes both gates: training batch and validation mean. */
  function Accepted(e: Experiment, parent: string, batch: seq<ExampleId>): Option<string> {
    var proposal := e.reflect(parent, Lessons(e, parent, batch));
    if !Flawless(e, parent, batch) && proposal.Some? && HoldsUp(e, proposal.value, parent, batch)
       && JudgedMean(e, proposal.value) >= JudgedMean(e, parent)
    then proposal else None
  }

  /** The pool after a completed round: the parent learns its batch scores, an accepted proposal joins and prunes. */
  function PoolAfter(e: Experiment, pool: Pool, i: nat, batch: seq<ExampleId>, round: nat): Pool
    requires i < |pool|
  {
    var parent := pool[i];
    var known := pool[i := parent.(train := parent.train + Verdicts(e, parent.text, batch))];
    var text := Accepted(e, parent.text, batch);
    if text.None? then known
    else
      var c := Candidate(text.value, Some(i), Verdicts(e, text.value, e.trainIds), Verdicts(e, text.value, e.valIds),
                         round);
      Pruned(known + [c], e.valIds)
  }

  lemma BatchIsTraining(e: Experiment, round: nat, text: string)
    requires Proper(e)
    ensures forall id :: id in Batch(e, round) ==> id in e.trainIds
    ensures Verdicts(e, text, Batch(e, round)) + Verdicts(e, text, e.trainIds) == Verdicts(e, text, e.trainIds)
  {
  }

  lemma ScoreFromNothing(e: Experiment, cap: Cap, text: string, ids: seq<ExampleId>, calls: nat, judged: Judged)
    requires HonestJudged(e, judged)
    ensures var r := Score(e, cap, text, ids, map[], calls, judged);
            HonestJudged(e, r.judged) && (r.complete ==> r.scores == Verdicts(e, text, ids))
  {
    hide Score;
    ScoreIsJudging(e, cap, text, ids, map[], calls, judged);
    assert map[] + Verdicts(e, text, ids) == Verdicts(e, text, ids);
  }

  lemma GateMeans(e: Experiment, text: string, p: Candidate, batch: seq<ExampleId>)
    requires HonestScores(e, p.text, p.train) && HasAll(p.train, batch)
    ensures NoWorse(Verdicts(e, text, batch), p.train, batch) <==> HoldsUp(e, text, p.text, batch)
  {
    forall k | 0 <= k < |batch|
      ensures ScoreOf(Verdicts(e, text, batch), batch[k]) == e.judge(text, batch[k]).score
      ensures ScoreOf(p.train, batch[k]) == e.judge(p.text, batch[k]).score
    {
    }
  }

  lemma ParentMean(e: Experiment, p: Candidate)
    requires HasAll(p.val, e.valIds) && HonestScores(e, p.text, p.val)
    ensures Mean(p.val, e.valIds) == JudgedMean(e, p.text)
  {
    SameValues(p.val, Verdicts(e, p.text, e.valIds), e.valIds);
  }

  lemma TrialAdmits(e: Experiment, cap: Cap, s: State, i: nat, text: string)
    requires Proper(e) && i < |s.candidates| && HonestJudged(e, s.judged)
    requires var p := s.candidates[i];
             && HasAll(p.val, e.valIds) && HonestScores(e, p.text, p.val) && HonestScores(e, p.text, p.train)
             && HasAll(p.train, Batch(e, s.done))
    ensures var r := Trial(e, cap, s, i, text);
            var p := s.candidates[i];
            var batch := Batch(e, s.done);
            && HonestJudged(e, r.state.judged)
            && r.state.done == (if r.ending.Completed? then s.done + 1 else s.done)
            && (r.ending.Completed? ==>
                  r.state.candidates
                  == if HoldsUp(e, text, p.text, batch) && JudgedMean(e, text) >= JudgedMean(e, p.text) then
                       Pruned(s.candidates + [Candidate(text, Some(i), Verdicts(e, text, e.trainIds),
                                                        Verdicts(e, text, e.valIds), s.done + 1)], e.valIds)
                     else s.candidates)
            && (!r.ending.Completed? ==> r.state.candidates == s.candidates)
  {
    hide Score;
    hide Mean;
    hide Pruned;
    hide NoWorse;
    hide HoldsUp;
    hide Verdicts;
    hide HonestJudged;
    var p := s.candidates[i];
    var batch := Batch(e, s.done);
    BatchIsTraining(e, s.done, text);
    GateMeans(e, text, p, batch);
    ParentMean(e, p);
    ScoreFromNothing(e, cap, text, batch, s.calls, s.judged);
    var first := Score(e, cap, text, batch, map[], s.calls, s.judged);
    if first.complete {
      ScoreIsJudging(e, cap, text, e.trainIds, first.scores, first.calls, first.judged);
      var full := Score(e, cap, text, e.trainIds, first.scores, first.calls, first.judged);
      ScoreFromNothing(e, cap, text, e.valIds, full.calls, full.judged);
    }
  }

  /** What the judge said of the parent on the batch is what the round looks at and reflects on. */
  lemma BatchMeans(e: Experiment, text: string, batch: seq<ExampleId>, train: map<ExampleId, real>, judged: Judged)
    requires HonestJudged(e, judged) && forall k :: 0 <= k < |batch| ==> (text, batch[k]) in judged
    ensures AllPerfect(train + Verdicts(e, text, batch), batch) <==> Flawless(e, text, batch)
    ensures Feedback(text, batch, judged) == Lessons(e, text, batch)
  {
    forall k | 0 <= k < |batch|
      ensures ScoreOf(train + Verdicts(e, text, batch), batch[k]) == e.judge(text, batch[k]).score
    {
    }
  }

  /**
    A completed round changes the pool by exactly this: its parent is scored on the batch, and its proposal joins, with
    the judge's scores, if and only if it holds up on the batch and on the validation mean.
   */
  lemma RoundAdmitsExactly(e: Experiment, cap: Cap, s: State)
    requires Proper(e) && s.candidates != [] && AllScored(s.candidates, e.valIds) && Honest(e, s)
    ensures var r := Round(e, cap, s);
            var i := Parent(s.candidates, e.valIds, e.draw(s.done));
            if r.ending.Completed? then
              && r.state.candidates == PoolAfter(e, s.candidates, i, Batch(e, s.done), s.done + 1)
              && r.state.done == s.done + 1
            else
              && r.state.done == s.done && |r.state.candidates| == |s.candidates|
              && forall k :: 0 <= k < |s.candidates| ==>
                   r.state.candidates[k] == s.candidates[k].(train := r.state.candidates[k].train)
    ensures HonestJudged(e, Round(e, cap, s).state.judged)
  {
    hide Score;
    hide Trial;
    hide Parent;
    hide Mean;
    hide Pruned;
    hide HonestJudged;
    hide HonestScores;
    hide HasAll;
    hide HoldsUp;
    hide JudgedMean;
    hide Verdicts;
    hide AllPerfect;
    hide Flawless;
    hide Feedback;
    hide Lessons;
    hide Batch;
    var i := Parent(s.candidates, e.valIds, e.draw(s.done));
    var parent := s.candidates[i];
    var batch := Batch(e, s.done);
    assert HasAll(parent.val, e.valIds);
    ScoreIsJudging(e, cap, parent.text, batch, parent.train, s.calls, s.judged);
    ScoreGrows(e, cap, parent.text, batch, parent.train, s.calls, s.judged);
    var scored := Score(e, cap, parent.text, batch, parent.train, s.calls, s.judged);
    if scored.complete {
      var s1 := s.(candidates := s.candidates[i := parent.(train := scored.scores)], calls := scored.calls,
                   judged := scored.judged);
      BatchMeans(e, parent.text, batch, parent.train, s1.judged);
      var proposal := e.reflect(parent.text, Feedback(parent.text, batch, s1.judged));
      if proposal.Some? {
        TrialAdmits(e, cap, s1, i, proposal.value);
      }
    }
  }

  // ------------------------------------------------------------ whole runs

  lemma PoolAfterIsHonest(e: Experiment, pool: Pool, i: nat, batch: seq<ExampleId>, round: nat)
    requires i < |pool|
    requires forall k :: 0 <= k < |pool| ==>
               HonestScores(e, pool[k].text, pool[k].train) && HonestScores(e, pool[k].text, pool[k].val)
    ensures var after := PoolAfter(e, pool, i, batch, round);
            forall k :: 0 <= k < |after| ==>
              HonestScores(e, after[k].text, after[k].train) && HonestScores(e, after[k].text, after[k].val)
  {
    hide Accepted;
    hide DominatedAt;
    var parent := pool[i];
    var known := pool[i := parent.(train := parent.train + Verdicts(e, parent.text, batch))];
    var text := Accepted(e, parent.text, batch);
    if text.Some? {
      var c := Candidate(text.value, Some(i), Verdicts(e, text.value, e.trainIds), Verdicts(e, text.value, e.valIds),
                         round);
      SurvivorsAre(known + [c], |known| + 1, e.valIds);
      var after := PoolAfter(e, pool, i, batch, round);
      forall k | 0 <= k < |after|
        ensures HonestScores(e, after[k].text, after[k].train) && HonestScores(e, after[k].text, after[k].val)
      {
        assert after[k] in after;
        assert after[k] in known + [c];
      }
    }
  }

  lemma RoundKeepsHonest(e: Experiment, cap: Cap, s: State)
    requires Proper(e) && s.candidates != [] && AllScored(s.candidates, e.valIds) && Honest(e, s)
    ensures Honest(e, Round(e, cap, s).state)
  {
    hide Score;
    hide Trial;
    hide Parent;
    hide PoolAfter;
    hide HonestScores;
    hide HonestJudged;
    var i := Parent(s.candidates, e.valIds, e.draw(s.done));
    var parent := s.candidates[i];
    var batch := Batch(e, s.done);
    RoundAdmitsExactly(e, cap, s);
    if Round(e, cap, s).ending.Completed? {
      PoolAfterIsHonest(e, s.candidates, i, batch, s.done + 1);
    } else {
      ScoreIsJudging(e, cap, parent.text, batch, parent.train, s.calls, s.judged);
      CutRoundIsHonest(e, cap, s);
    }
  }

  /** A round cut short has changed the pool by the scores of its parent alone. */
  lemma CutRoundIsHonest(e: Experiment, cap: Cap, s: State)
    requires Proper(e) && s.candidates != [] && !Round(e, cap, s).ending.Completed?
    ensures var i := Parent(s.candidates, e.valIds, e.draw(s.done));
            var parent := s.candidates[i];
            var scored := Score(e, cap, parent.text, Batch(e, s.done), parent.train, s.calls, s.judged);
            Round(e, cap, s).state.candidates == s.candidates[i := parent.(train := scored.scores)]
  {
    hide Score;
    hide Parent;
    hide Mean;
    hide Pruned;
  }

  /** The states in which the rounds of a loop were entered. */
  function Entered(e: Experiment, cap: Cap, rounds: nat, s: State): seq<State>
    requires Proper(e) && s.candidates != []
    decreases if rounds > s.done then rounds - s.done else 0
  {
    if s.done >= rounds || Capped(cap, s.calls) then []
    else
      RoundKeepsPool(e, cap, s);
      var r := Round(e, cap, s);
      [s] + if r.ending.Completed? then Entered(e, cap, rounds, r.state) else []
  }

  /** In this state a round was entered that completed and accepted this text. */
  predicate AcceptsIn(e: Experiment, cap: Cap, s: State, text: string)
    requires Proper(e)
  {
    && s.candidates != [] && Round(e, cap, s).ending.Completed?
    && Accepted(e, s.candidates[Parent(s.candidates, e.valIds, e.draw(s.done))].text, Batch(e, s.done)) == Some(text)
  }

  predicate Reaches(e: Experiment, s: State, mean: real) {
    s.candidates != [] && AllScored(s.candidates, e.valIds) && BestMean(s.candidates, e.valIds) >= mean
  }

  predicate FileReaches(e: Experiment, file: Option<State>, mean: real) {
    file.Some? && Reaches(e, file.value, mean)
  }

  lemma AcceptingReaches(e: Experiment, cap: Cap, s: State, text: string)
    requires Proper(e) && s.candidates != [] && AllScored(s.candidates, e.valIds) && Honest(e, s)
    requires AcceptsIn(e, cap, s, text)
    ensures Reaches(e, Round(e, cap, s).state, JudgedMean(e, text))
  {
    hide Round;
    hide Parent;
    hide BestMean;
    hide Pruned;
    hide Mean;
    hide Honest;
    hide Accepted;
    RoundAdmitsExactly(e, cap, s);
    var i := Parent(s.candidates, e.valIds, e.draw(s.done));
    var parent := s.candidates[i];
    var known := s.candidates[i := parent.(train := parent.train + Verdicts(e, parent.text, Batch(e, s.done)))];
    var c := Candidate(text, Some(i), Verdicts(e, text, e.trainIds), Verdicts(e, text, e.valIds), s.done + 1);
    AdmittingNeverLowersTheBest(known, c, e.valIds);
  }

  /** Rounds from here on keep the best mean, in memory and in every file they write. */
  lemma {:induction false} LoopReaches(e: Experiment, cap: Cap, rounds: nat, s: State, file: Option<State>, mean: real)
    requires Proper(e) && Reaches(e, s, mean)
    ensures var f := Loop(e, cap, rounds, s, file);
            Reaches(e, f.state, mean) && (f.file == file || FileReaches(e, f.file, mean))
    decreases if rounds > s.done then rounds - s.done else 0
  {
    hide Round;
    hide BestMean;
    if s.done < rounds && !Capped(cap, s.calls) {
      var r := Round(e, cap, s);
      RoundKeepsPool(e, cap, s);
      RoundKeepsScored(e, cap, s);
      if r.ending.Completed? {
        LoopReaches(e, cap, rounds, r.state, Some(r.state), mean);
      }
    }
  }

  /** A text accepted in any round of a loop bounds the best mean of its end, in memory and on file. */
  lemma {:induction false} LoopBeatsAccepted(e: Experiment, cap: Cap, rounds: nat, s: State, file: Option<State>,
                                             n: nat, text: string)
    requires Proper(e) && s.candidates != [] && AllScored(s.candidates, e.valIds) && Honest(e, s)
    requires n < |Entered(e, cap, rounds, s)| && AcceptsIn(e, cap, Entered(e, cap, rounds, s)[n], text)
    ensures var f := Loop(e, cap, rounds, s, file);
            Reaches(e, f.state, JudgedMean(e, text)) && FileReaches(e, f.file, JudgedMean(e, text))
    decreases if rounds > s.done then rounds - s.done else 0
  {
    hide Round;
    hide BestMean;
    hide AcceptsIn;
    hide Honest;
    var r := Round(e, cap, s);
    RoundKeepsPool(e, cap, s);
    RoundKeepsScored(e, cap, s);
    RoundKeepsHonest(e, cap, s);
    if n == 0 {
      assert r.ending.Completed? by { CompletedIfAccepted(e, cap, s, text); }
      AcceptingReaches(e, cap, s, text);
      LoopReaches(e, cap, rounds, r.state, Some(r.state), JudgedMean(e, text));
    } else {
      LoopBeatsAccepted(e, cap, rounds, r.state, Some(r.state), n - 1, text);
    }
  }

  lemma CompletedIfAccepted(e: Experiment, cap: Cap, s: State, text: string)
    requires Proper(e) && AcceptsIn(e, cap, s, text)
    ensures Round(e, cap, s).ending.Completed?
  {
    hide Round;
  }

  predicate HonestFile(e: Experiment, file: Option<State>) {
    file.Some? ==> Honest(e, file.value)
  }

  lemma {:induction false} LoopKeepsHonest(e: Experiment, cap: Cap, rounds: nat, s: State, file: Option<State>)
    requires Proper(e) && s.candidates != [] && AllScored(s.candidates, e.valIds) && Honest(e, s) && HonestFile(e, file)
    ensures var f := Loop(e, cap, rounds, s, file);
            Honest(e, f.state) && HonestFile(e, f.file)
    decreases if rounds > s.done then rounds - s.done else 0
  {
    hide Round;
    hide Honest;
    if s.done < rounds && !Capped(cap, s.calls) {
      var r := Round(e, cap, s);
      RoundKeepsPool(e, cap, s);
      RoundKeepsScored(e, cap, s);
      RoundKeepsHonest(e, cap, s);
      if r.ending.Completed? {
        LoopKeepsHonest(e, cap, rounds, r.state, Some(r.state));
      }
    }
  }

  /** The state with which the rounds of a run start: the restored or fresh one, its first candidate scored. */
  function Started(e: Experiment, cap: Cap, file: Option<State>): State
    requires Proper(e)
  {
    var s := Opened(e, file);
    var seed := s.candidates[0];
    if HasAll(seed.val, e.valIds) then s
    else
      var scored := Score(e, cap, seed.text, e.valIds, seed.val, s.calls, s.judged);
      s.(candidates := s.candidates[0 := seed.(val := scored.scores)], calls := scored.calls, judged := scored.judged)
  }

  lemma StartedIsHonest(e: Experiment, cap: Cap, rounds: nat, file: Option<State>)
    requires Proper(e) && SoundFile(e, file) && HonestFile(e, file)
    ensures var s := Started(e, cap, file);
            && s.candidates != [] && Honest(e, s)
            && (if HasAll(s.candidates[0].val, e.valIds) then
                  AllScored(s.candidates, e.valIds) && Resume(e, cap, rounds, file) == Loop(e, cap, rounds, s, file)
                else Resume(e, cap, rounds, file) == Finished(s, Some(s)))
  {
    hide Loop;
    hide Score;
    OpenedIsSound(e, file);
    var s := Opened(e, file);
    var seed := s.candidates[0];
    if HasAll(seed.val, e.valIds) {
      BaselineIsScored(e, s, seed.val);
      assert s.candidates[0 := seed] == s.candidates;
    } else {
      ScoreGrows(e, cap, seed.text, e.valIds, seed.val, s.calls, s.judged);
      ScoreIsJudging(e, cap, seed.text, e.valIds, seed.val, s.calls, s.judged);
      var scored := Score(e, cap, seed.text, e.valIds, seed.val, s.calls, s.judged);
      if scored.complete {
        BaselineIsScored(e, s, scored.scores);
      } else {
        var k :| 0 <= k < |e.valIds| && (seed.text, e.valIds[k]) !in scored.judged;
        assert e.valIds[k] !in scored.scores;
      }
    }
  }

  /** What a run leaves on file is as honest as what it found. */
  lemma {:induction false} SavedIsHonest(e: Experiment, legs: seq<Leg>)
    requires Proper(e)
    ensures SoundFile(e, Saved(e, legs)) && HonestFile(e, Saved(e, legs))
    decreases |legs|
  {
    hide Resume;
    hide Honest;
    SavedIsSound(e, legs);
    if legs != [] {
      var last := legs[|legs| - 1];
      var file := Saved(e, legs[..|legs| - 1]);
      SavedIsHonest(e, legs[..|legs| - 1]);
      StartedIsHonest(e, last.cap, last.rounds, file);
      var s := Started(e, last.cap, file);
      if HasAll(s.candidates[0].val, e.valIds) {
        LoopKeepsHonest(e, last.cap, last.rounds, s, file);
      }
    }
  }

  /** A round of this run accepted this text. */
  ghost predicate AcceptedBy(e: Experiment, leg: Leg, file: Option<State>, text: string)
    requires Proper(e)
  {
    var s := Started(e, leg.cap, file);
    && s.candidates != [] && HasAll(s.candidates[0].val, e.valIds)
    && exists n :: 0 <= n < |Entered(e, leg.cap, leg.rounds, s)|
                   && AcceptsIn(e, leg.cap, Entered(e, leg.cap, leg.rounds, s)[n], text)
  }

  lemma AcceptingLeg(e: Experiment, leg: Leg, file: Option<State>, text: string)
    requires Proper(e) && SoundFile(e, file) && HonestFile(e, file) && AcceptedBy(e, leg, file, text)
    ensures var f := Resume(e, leg.cap, leg.rounds, file);
            Reaches(e, f.state, JudgedMean(e, text)) && FileReaches(e, f.file, JudgedMean(e, text))
  {
    hide Resume;
    hide Honest;
    hide AcceptsIn;
    hide Entered;
    StartedIsHonest(e, leg.cap, leg.rounds, file);
    var s := Started(e, leg.cap, file);
    var n :| 0 <= n < |Entered(e, leg.cap, leg.rounds, s)|
             && AcceptsIn(e, leg.cap, Entered(e, leg.cap, leg.rounds, s)[n], text);
    LoopBeatsAccepted(e, leg.cap, leg.rounds, s, file, n, text);
  }

  lemma LaterLeg(e: Experiment, leg: Leg, file: Option<State>, mean: real)
    requires Proper(e) && FileReaches(e, file, mean)
    ensures var f := Resume(e, leg.cap, leg.rounds, file);
            Reaches(e, f.state, mean) && FileReaches(e, f.file, mean)
  {
    hide Loop;
    hide BestMean;
    LoopReaches(e, leg.cap, leg.rounds, file.value, file, mean);
  }

  lemma {:induction false} SavedReaches(e: Experiment, legs: seq<Leg>, j: nat, text: string)
    requires Proper(e) && j < |legs| && AcceptedBy(e, legs[j], Saved(e, legs[..j]), text)
    ensures FileReaches(e, Saved(e, legs), JudgedMean(e, text))
    decreases |legs|
  {
    hide Resume;
    hide AcceptedBy;
    hide Reaches;
    var before := legs[..|legs| - 1];
    if j == |legs| - 1 {
      SavedIsHonest(e, before);
      AcceptingLeg(e, legs[j], Saved(e, before), text);
    } else {
      assert before[..j] == legs[..j];
      SavedReaches(e, before, j, text);
      LaterLeg(e, legs[|legs| - 1], Saved(e, before), JudgedMean(e, text));
    }
  }

  /**
    However a run was interrupted, the best validation mean of the pool it ends with is at least the judge's mean of
    every proposal that any completed round of any leg accepted.
   */
  lemma FinalPoolBeatsEveryAccepted(e: Experiment, legs: seq<Leg>, last: Leg, j: nat, text: string)
    requires Proper(e) && j <= |legs|
    requires AcceptedBy(e, (legs + [last])[j], Saved(e, (legs + [last])[..j]), text)
    ensures var pool := Resume(e, last.cap, last.rounds, Saved(e, legs)).state.candidates;
            pool != [] && BestMean(pool, e.valIds) >= JudgedMean(e, text)
  {
    hide Resume;
    hide AcceptedBy;
    hide BestMean;
    if j < |legs| {
      assert (legs + [last])[..j] == legs[..j];
      SavedReaches(e, legs, j, text);
      LaterLeg(e, last, Saved(e, legs), JudgedMean(e, text));
    } else {
      assert (legs + [last])[..j] == legs;
      SavedIsHonest(e, legs);
      AcceptingLeg(e, last, Saved(e, legs), text);
    }
  }

  // ---------------------------------------------------- batches and rounds

  /** Batches go through the training examples over and over, none skipped. */
  lemma BatchesTileTraining(e: Experiment, k: nat)
    requires Proper(e)
    ensures k % e.minibatch < |Batch(e, k / e.minibatch)|
    ensures Batch(e, k / e.minibatch)[k % e.minibatch] == e.trainIds[k % |e.trainIds|]
  {
    var m, n := e.minibatch, |e.trainIds|;
    var a, j := (k / m) * m, k % m;
    assert a + j == k;
    ModOfSum(a, j, n);
  }

  lemma ModOfSum(a: nat, j: nat, n: nat)
    requires n > 0
    ensures (a % n + j) % n == (a + j) % n
  {
    var x := a % n + j;
    assert a + j == (a / n + x / n) * n + x % n by {
      assert (a / n + x / n) * n == (a / n) * n + (x / n) * n;
    }
    OneRemainder(a + j, a / n + x / n, x % n, n);
  }

  lemma OneRemainder(x: nat, q: nat, r: nat, n: nat)
    requires n > 0 && r < n && x == q * n + r
    ensures x % n == r
  {
    SameRemainder(x / n, x % n, q, r, n);
  }

  lemma SameRemainder(p: int, s: nat, q: int, r: nat, n: nat)
    requires p * n + s == q * n + r && r < n && s < n
    ensures s == r
  {
    if p != q {
      var k: nat := if p > q then p - q else q - p;
      assert k * n == (if p > q then p * n - q * n else q * n - p * n);
      AtLeastOnce(k, n);
    }
  }

  lemma AtLeastOnce(k: nat, n: nat)
    requires k >= 1
    ensures k * n >= n
  {
    assert k * n == (k - 1) * n + n;
  }

  /** Rounds run until all are done, unless the cap is spent; no round is run twice or past the last. */
  lemma {:induction false} RoundsRunOut(e: Experiment, cap: Cap, rounds: nat, s: State, file: Option<State>)
    requires Proper(e) && s.candidates != []
    ensures var f := Loop(e, cap, rounds, s, file);
            && (f.state.done >= rounds || Capped(cap, f.state.calls))
            && s.done <= f.state.done && (f.state.done <= rounds || f.state.done == s.done)
    decreases if rounds > s.done then rounds - s.done else 0
  {
    hide Round;
    if s.done < rounds && !Capped(cap, s.calls) {
      var r := Round(e, cap, s);
      RoundKeepsPool(e, cap, s);
      if r.ending.Completed? {
        RoundsRunOut(e, cap, rounds, r.state, Some(r.state));
      } else {
        CutMeansCapped(e, cap, s);
      }
    }
  }

  lemma CutMeansCapped(e: Experiment, cap: Cap, s: State)
    requires Proper(e) && s.candidates != [] && !Round(e, cap, s).ending.Completed?
    ensures Capped(cap, Round(e, cap, s).state.calls)
  {
    hide Score;
    hide Trial;
    hide Parent;
    var i := Parent(s.candidates, e.valIds, e.draw(s.done));
    var parent := s.candidates[i];
    var batch := Batch(e, s.done);
    var scored := Score(e, cap, parent.text, batch, parent.train, s.calls, s.judged);
    ScoreGrows(e, cap, parent.text, batch, parent.train, s.calls, s.judged);
    var s1 := s.(candidates := s.candidates[i := parent.(train := scored.scores)], calls := scored.calls,
                 judged := scored.judged);
    var proposal := e.reflect(parent.text, Feedback(parent.text, batch, s1.judged));
    if proposal.Some? {
      TrialGrows(e, cap, s1, i, proposal.value);
    }
  }
}
