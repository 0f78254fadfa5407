/**
  Interrupting prompt evolution at any spending cap and resuming it returns what running it in one go returns,
  and what the interruptions cost.
 */
module Resumption {
  import opened Wrappers
  import opened Pareto
  import opened Evolution

  // ------------------------------------------------------------- whole runs

  lemma {:induction false} LoopIgnoresFile(e: Experiment, cap: Cap, rounds: nat, s: State, f: Option<State>,
                                           g: Option<State>)
    requires Proper(e) && s.candidates != []
    ensures Loop(e, cap, rounds, s, f).state == Loop(e, cap, rounds, s, g).state
    ensures Loop(e, cap, rounds, s, f).file == f || Loop(e, cap, rounds, s, f).file == Loop(e, cap, rounds, s, g).file
    decreases if rounds > s.done then rounds - s.done else 0
  {
    hide Round;
    if s.done < rounds && !Capped(cap, s.calls) {
      RoundKeepsPool(e, cap, s);
    }
  }

  /** A round cut short under the small cap is where the large cap stops too, or is resumed. */
  lemma {:induction false} CutResumes(e: Experiment, small: Cap, large: Cap, rounds: nat, s: State, g: Option<State>)
    requires Proper(e) && s.candidates != [] && Within(small, large) && s.done < rounds && !Capped(small, s.calls)
    requires Round(e, small, s).ending.Cut?
    ensures Round(e, small, s).state.candidates != []
    ensures Loop(e, large, rounds, Round(e, small, s).state, g).state == Loop(e, large, rounds, s, g).state
  {
    hide Round;
    var r := Round(e, small, s).state;
    RoundKeepsPool(e, small, s);
    RoundStopsAtCap(e, small, s);
    if Capped(large, r.calls) {
      assert large == small;
    } else {
      RoundResumes(e, small, large, s);
      var again := Round(e, large, s);
      RoundKeepsPool(e, large, s);
      if again.ending.Completed? {
        LoopIgnoresFile(e, large, rounds, again.state, Some(again.state), g);
      }
    }
  }

  /** A round entered below the cap that is cut short has spent exactly the cap. */
  lemma {:induction false} RoundStopsAtCap(e: Experiment, cap: Cap, s: State)
    requires Proper(e) && s.candidates != [] && !Capped(cap, s.calls)
    ensures var r := Round(e, cap, s);
            && (r.ending.Cut? ==> cap.Some? && r.state.calls == cap.value)
            && (cap.Some? ==> r.state.calls <= cap.value)
            && Extends(s.judged, r.state.judged)
  {
    hide Score;
    hide Trial;
    hide Parent;
    var i := Parent(s.candidates, e.valIds, e.draw(s.done));
    var parent := s.candidates[i];
    var batch := Batch(e, s.done);
    var scored := Score(e, cap, parent.text, batch, parent.train, s.calls, s.judged);
    ScoreGrows(e, cap, parent.text, batch, parent.train, s.calls, s.judged);
    var s1 := s.(candidates := s.candidates[i := parent.(train := scored.scores)], calls := scored.calls,
                 judged := scored.judged);
    var proposal := e.reflect(parent.text, Feedback(parent.text, batch, s1.judged));
    if proposal.Some? {
      TrialGrows(e, cap, s1, i, proposal.value);
    }
  }

  /** From whatever a loop under the small cap left in the file, the large cap ends as if it had run from the start. */
  lemma {:induction false} LoopResumes(e: Experiment, small: Cap, large: Cap, few: nat, many: nat, s: State,
                                       file: Option<State>, g: Option<State>)
    requires Proper(e) && s.candidates != [] && Within(small, large) && few <= many
    ensures var after := Loop(e, small, few, s, file).file;
            after != file ==>
              && after.Some? && after.value.candidates != []
              && Loop(e, large, many, after.value, g).state == Loop(e, large, many, s, g).state
    decreases if few > s.done then few - s.done else 0
  {
    hide Round;
    if s.done < few && !Capped(small, s.calls) {
      var r := Round(e, small, s);
      RoundKeepsPool(e, small, s);
      if r.ending.Completed? {
        RoundUnderMore(e, small, large, s);
        LoopResumes(e, small, large, few, many, r.state, Some(r.state), g);
        LoopIgnoresFile(e, large, many, r.state, Some(r.state), g);
      } else if r.ending.Cut? {
        CutResumes(e, small, large, many, s, g);
      }
    }
  }

  // ---------------------------------------------------------------- baseline

  /** Every candidate but the first is fully scored, and so is the first, or all its scores are filed judgments. */
  predicate Sound(e: Experiment, s: State) {
    && s.candidates != []
    && AllScored(s.candidates[1..], e.valIds)
    && (HasAll(s.candidates[0].val, e.valIds)
        || forall id :: id in s.candidates[0].val ==> (s.candidates[0].text, id) in s.judged)
  }

  predicate SoundFile(e: Experiment, file: Option<State>) {
    file.Some? ==> Sound(e, file.value)
  }

  lemma {:induction false} AllScoredIsSound(e: Experiment, s: State)
    requires s.candidates != [] && AllScored(s.candidates, e.valIds)
    ensures Sound(e, s)
  {
    assert forall i :: 0 <= i < |s.candidates[1..]| ==> s.candidates[1..][i] == s.candidates[i + 1];
  }

  lemma {:induction false} RoundKeepsScored(e: Experiment, cap: Cap, s: State)
    requires Proper(e) && s.candidates != [] && AllScored(s.candidates, e.valIds)
    ensures AllScored(Round(e, cap, s).state.candidates, e.valIds)
    ensures Round(e, cap, s).state.candidates != []
    ensures BestMean(Round(e, cap, s).state.candidates, e.valIds) >= BestMean(s.candidates, e.valIds)
  {
    hide Score;
    hide Trial;
    hide Parent;
    hide BestMean;
    hide Pruned;
    hide HasAll;
    var i := Parent(s.candidates, e.valIds, e.draw(s.done));
    var parent := s.candidates[i];
    var batch := Batch(e, s.done);
    var scored := Score(e, cap, parent.text, batch, parent.train, s.calls, s.judged);
    var s1 := s.(candidates := s.candidates[i := parent.(train := scored.scores)], calls := scored.calls,
                 judged := scored.judged);
    BestMeanIgnoresTrain(s.candidates, s1.candidates, e.valIds);
    var proposal := e.reflect(parent.text, Feedback(parent.text, batch, s1.judged));
    if proposal.Some? {
      TrialKeepsScored(e, cap, s1, i, proposal.value);
    }
  }

  lemma {:induction false} TrialKeepsScored(e: Experiment, cap: Cap, s: State, i: nat, text: string)
    requires Proper(e) && i < |s.candidates| && AllScored(s.candidates, e.valIds)
    ensures var pool := Trial(e, cap, s, i, text).state.candidates;
            pool != [] && AllScored(pool, e.valIds) && BestMean(pool, e.valIds) >= BestMean(s.candidates, e.valIds)
  {
    hide Score;
    hide Mean;
    hide Pruned;
    hide BestMean;
    var batch := Batch(e, s.done);
    var first := Score(e, cap, text, batch, map[], s.calls, s.judged);
    var full := Score(e, cap, text, e.trainIds, first.scores, first.calls, first.judged);
    var val := Score(e, cap, text, e.valIds, map[], full.calls, full.judged);
    ScoreGrows(e, cap, text, e.valIds, map[], full.calls, full.judged);
    if val.complete {
      AdmittingNeverLowersTheBest(s.candidates, Candidate(text, Some(i), full.scores, val.scores, s.done + 1),
                                  e.valIds);
    }
  }

  lemma {:induction false} BestMeanIgnoresTrain(a: Pool, b: Pool, ids: seq<ExampleId>)
    requires a != [] && |a| == |b| && forall i :: 0 <= i < |a| ==> a[i].val == b[i].val && a[i].text == b[i].text
    ensures BestMean(a, ids) == BestMean(b, ids)
  {
    var u, v := Winner(a, ids), Winner(b, ids);
    assert Wins(a, u, v, ids) && Wins(b, v, u, ids);
  }

  /** Loops keep a fully scored pool fully scored, and its best validation mean from falling. */
  lemma {:induction false} LoopKeepsScored(e: Experiment, cap: Cap, rounds: nat, s: State, file: Option<State>)
    requires Proper(e) && s.candidates != [] && AllScored(s.candidates, e.valIds)
    ensures var f := Loop(e, cap, rounds, s, file);
            && f.state.candidates != [] && AllScored(f.state.candidates, e.valIds)
            && BestMean(f.state.candidates, e.valIds) >= BestMean(s.candidates, e.valIds)
            && (f.file != file
                ==> f.file.Some? && f.file.value.candidates != [] && AllScored(f.file.value.candidates, e.valIds))
    decreases if rounds > s.done then rounds - s.done else 0
  {
    hide Round;
    hide BestMean;
    if s.done < rounds && !Capped(cap, s.calls) {
      var r := Round(e, cap, s);
      RoundKeepsPool(e, cap, s);
      RoundKeepsScored(e, cap, s);
      if r.ending.Completed? {
        LoopKeepsScored(e, cap, rounds, r.state, Some(r.state));
      }
    }
  }

  function Opened(e: Experiment, file: Option<State>): State {
    if file.Some? && file.value.candidates != [] then file.value else Fresh(e)
  }

  lemma {:induction false} OpenedIsSound(e: Experiment, file: Option<State>)
    requires SoundFile(e, file)
    ensures Sound(e, Opened(e, file))
  {
  }

  /** Scoring the first candidate completely leaves the whole pool scored. */
  lemma {:induction false} BaselineIsScored(e: Experiment, s: State, scores: map<ExampleId, real>)
    requires Sound(e, s) && HasAll(scores, e.valIds)
    ensures AllScored(s.candidates[0 := s.candidates[0].(val := scores)], e.valIds)
  {
    var pool := s.candidates[0 := s.candidates[0].(val := scores)];
    forall i | 0 <= i < |pool|
      ensures HasAll(pool[i].val, e.valIds)
    {
      if i > 0 {
        assert pool[i] == s.candidates[1..][i - 1];
      }
    }
  }

  /** A file written by a run from a sound file is sound. */
  lemma {:induction false} ResumeSavesSound(e: Experiment, cap: Cap, rounds: nat, file: Option<State>)
    requires Proper(e) && SoundFile(e, file)
    ensures SoundFile(e, Resume(e, cap, rounds, file).file)
  {
    hide Loop;
    hide Score;
    hide BestMean;
    OpenedIsSound(e, file);
    var s := Opened(e, file);
    var seed := s.candidates[0];
    if HasAll(seed.val, e.valIds) {
      BaselineIsScored(e, s, seed.val);
      assert s.candidates[0 := seed] == s.candidates;
      LoopKeepsScored(e, cap, rounds, s, file);
      var f := Loop(e, cap, rounds, s, file);
      if f.file != file {
        AllScoredIsSound(e, f.file.value);
      }
    } else {
      var scored := Score(e, cap, seed.text, e.valIds, seed.val, s.calls, s.judged);
      ScoreGrows(e, cap, seed.text, e.valIds, seed.val, s.calls, s.judged);
      var s1 := s.(candidates := s.candidates[0 := seed.(val := scored.scores)], calls := scored.calls,
                   judged := scored.judged);
      if scored.complete {
        BaselineIsScored(e, s, scored.scores);
        LoopKeepsScored(e, cap, rounds, s1, file);
        var f := Loop(e, cap, rounds, s1, file);
        if f.file != file {
          AllScoredIsSound(e, f.file.value);
        }
      } else {
        assert s1.candidates[1..] == s.candidates[1..];
      }
    }
  }

  /** One interruption: what the small cap leaves in the file, the large cap finishes as a run in one go would. */
  lemma {:induction false} ResumeEqualsStraightRun(e: Experiment, small: Cap, large: Cap, few: nat, many: nat,
                                                   file: Option<State>)
    requires Proper(e) && SoundFile(e, file) && Within(small, large) && few <= many
    ensures Resume(e, large, many, Resume(e, small, few, file).file).state == Resume(e, large, many, file).state
  {
    hide Loop;
    hide Score;
    OpenedIsSound(e, file);
    var s := Opened(e, file);
    var seed := s.candidates[0];
    if HasAll(seed.val, e.valIds) {
      BaselineIsScored(e, s, seed.val);
      assert s.candidates[0 := seed] == s.candidates;
      LoopPart(e, small, large, few, many, s, file);
    } else {
      var r := Score(e, small, seed.text, e.valIds, seed.val, s.calls, s.judged);
      ScoreGrows(e, small, seed.text, e.valIds, seed.val, s.calls, s.judged);
      var s1 := s.(candidates := s.candidates[0 := seed.(val := r.scores)], calls := r.calls, judged := r.judged);
      if r.complete {
        ScoreUnderMore(e, small, large, seed.text, e.valIds, seed.val, s.calls, s.judged);
        BaselineIsScored(e, s, r.scores);
        LoopPart(e, small, large, few, many, s1, file);
      } else {
        ScoreResumes(e, small, large, seed.text, e.valIds, seed.val, s.calls, s.judged, r.scores);
        var again := Score(e, large, seed.text, e.valIds, seed.val, s.calls, s.judged);
        assert s1.candidates[0 := s1.candidates[0].(val := again.scores)]
               == s.candidates[0 := seed.(val := again.scores)];
        var s2 := s.(candidates := s.candidates[0 := seed.(val := again.scores)], calls := again.calls,
                     judged := again.judged);
        LoopIgnoresFile(e, large, many, s2, file, Some(s1));
      }
    }
  }

  /** The rounds of the interrupted run, from a scored pool. */
  lemma {:induction false} LoopPart(e: Experiment, small: Cap, large: Cap, few: nat, many: nat, s: State,
                                    file: Option<State>)
    requires Proper(e) && s.candidates != [] && AllScored(s.candidates, e.valIds) && Within(small, large) && few <= many
    ensures var after := Loop(e, small, few, s, file).file;
            after == file || (after.Some? && after.value.candidates != []
                              && Resume(e, large, many, after).state == Loop(e, large, many, s, file).state)
  {
    hide Loop;
    hide BestMean;
    var after := Loop(e, small, few, s, file).file;
    if after != file {
      LoopResumes(e, small, large, few, many, s, file, after);
      LoopKeepsScored(e, small, few, s, file);
      LoopIgnoresFile(e, large, many, s, file, after);
      assert HasAll(after.value.candidates[0].val, e.valIds);
    }
  }

  // ------------------------------------------------------------- main result

  datatype Leg = Leg(cap: Cap, rounds: nat)

  /** What the state file holds after any number of interrupted runs. */
  function Saved(e: Experiment, legs: seq<Leg>): Option<State>
    requires Proper(e)
  {
    if legs == [] then None
    else Resume(e, legs[|legs| - 1].cap, legs[|legs| - 1].rounds, Saved(e, legs[..|legs| - 1])).file
  }

  datatype EvolveResult = EvolveResult(best: string, candidates: Pool, metricCalls: nat, roundsRun: nat, gap: real)

  /** `_result`. */
  function ResultOf(e: Experiment, s: State): EvolveResult
    requires s.candidates != []
  {
    var best := s.candidates[Winner(s.candidates, e.valIds)];
    EvolveResult(best.text, s.candidates, s.calls, s.done, Mean(best.train, e.trainIds) - Mean(best.val, e.valIds))
  }

  lemma {:induction false} ResumeHasPool(e: Experiment, cap: Cap, rounds: nat, file: Option<State>)
    requires Proper(e) && SoundFile(e, file)
    ensures Resume(e, cap, rounds, file).state.candidates != []
  {
    hide Round;
    hide Score;
    OpenedIsSound(e, file);
    var s := Opened(e, file);
    LoopHasPool(e, cap, rounds, s, file);
    var seed := s.candidates[0];
    var scored := Score(e, cap, seed.text, e.valIds, seed.val, s.calls, s.judged);
    LoopHasPool(e, cap, rounds,
                s.(candidates := s.candidates[0 := seed.(val := scored.scores)], calls := scored.calls,
                   judged := scored.judged), file);
  }

  lemma {:induction false} LoopHasPool(e: Experiment, cap: Cap, rounds: nat, s: State, file: Option<State>)
    requires Proper(e) && s.candidates != []
    ensures Loop(e, cap, rounds, s, file).state.candidates != []
    decreases if rounds > s.done then rounds - s.done else 0
  {
    hide Round;
    if s.done < rounds && !Capped(cap, s.calls) {
      RoundKeepsPool(e, cap, s);
      var r := Round(e, cap, s);
      if r.ending.Completed? {
        LoopHasPool(e, cap, rounds, r.state, Some(r.state));
      }
    }
  }

  lemma {:induction false} SavedIsSound(e: Experiment, legs: seq<Leg>)
    requires Proper(e)
    ensures SoundFile(e, Saved(e, legs))
    decreases |legs|
  {
    hide Resume;
    if legs != [] {
      var earlier := legs[..|legs| - 1];
      SavedIsSound(e, earlier);
      ResumeSavesSound(e, legs[|legs| - 1].cap, legs[|legs| - 1].rounds, Saved(e, earlier));
    }
  }

  lemma {:induction false} SavedStateContinues(e: Experiment, legs: seq<Leg>, cap: Cap, rounds: nat)
    requires Proper(e)
    requires forall i :: 0 <= i < |legs| ==> Within(legs[i].cap, cap) && legs[i].rounds <= rounds
    ensures Resume(e, cap, rounds, Saved(e, legs)).state == Resume(e, cap, rounds, None).state
    decreases |legs|
  {
    hide Resume;
    if legs != [] {
      var earlier := legs[..|legs| - 1];
      var last := legs[|legs| - 1];
      SavedStateContinues(e, earlier, cap, rounds);
      SavedIsSound(e, earlier);
      ResumeEqualsStraightRun(e, last.cap, cap, last.rounds, rounds, Saved(e, earlier));
    }
  }

  /**
    However often a run was interrupted, under whatever smaller caps and round limits, resuming it
    returns the same result as one run in one go.
   */
  lemma {:induction false} InterruptedRunsReturnTheSameResult(e: Experiment, legs: seq<Leg>, cap: Cap, rounds: nat)
    requires Proper(e)
    requires forall i :: 0 <= i < |legs| ==> Within(legs[i].cap, cap) && legs[i].rounds <= rounds
    ensures var resumed := Resume(e, cap, rounds, Saved(e, legs)).state;
            var straight := Resume(e, cap, rounds, None).state;
            && resumed.candidates != [] && straight.candidates != []
            && ResultOf(e, resumed) == ResultOf(e, straight)
  {
    hide Resume;
    SavedStateContinues(e, legs, cap, rounds);
    SavedIsSound(e, legs);
    ResumeHasPool(e, cap, rounds, Saved(e, legs));
    ResumeHasPool(e, cap, rounds, None);
  }

  // -------------------------------------------------------------- counting

  /** The counter of a state is the number of pairs it has judgments for. */
  predicate Tallied(s: State) {
    s.calls == |s.judged|
  }

  lemma {:induction false} ScoreTallies(e: Experiment, cap: Cap, text: string, ids: seq<ExampleId>,
                                        scores: map<ExampleId, real>, calls: nat, judged: Judged)
    requires calls == |judged|
    ensures var r := Score(e, cap, text, ids, scores, calls, judged);
            r.calls == |r.judged|
    decreases |ids|
  {
    if ids != [] {
      var key := (text, ids[0]);
      if key in judged {
        ScoreTallies(e, cap, text, ids[1..], scores[ids[0] := judged[key].score], calls, judged);
      } else if !Capped(cap, calls) {
        var j := e.judge(text, ids[0]);
        assert judged[key := j].Keys == judged.Keys + {key};
        ScoreTallies(e, cap, text, ids[1..], scores[ids[0] := j.score], calls + 1, judged[key := j]);
      }
    }
  }

  lemma {:induction false} TrialTallies(e: Experiment, cap: Cap, s: State, i: nat, text: string)
    requires Proper(e) && i < |s.candidates| && Tallied(s)
    ensures Tallied(Trial(e, cap, s, i, text).state)
  {
    hide Score;
    hide Mean;
    hide Pruned;
    var batch := Batch(e, s.done);
    ScoreTallies(e, cap, text, batch, map[], s.calls, s.judged);
    var first := Score(e, cap, text, batch, map[], s.calls, s.judged);
    ScoreTallies(e, cap, text, e.trainIds, first.scores, first.calls, first.judged);
    var full := Score(e, cap, text, e.trainIds, first.scores, first.calls, first.judged);
    ScoreTallies(e, cap, text, e.valIds, map[], full.calls, full.judged);
  }

  lemma {:induction false} RoundTallies(e: Experiment, cap: Cap, s: State)
    requires Proper(e) && s.candidates != [] && Tallied(s)
    ensures Tallied(Round(e, cap, s).state)
    ensures Round(e, cap, s).state.calls >= s.calls
  {
    hide Score;
    hide Trial;
    hide Parent;
    var i := Parent(s.candidates, e.valIds, e.draw(s.done));
    var parent := s.candidates[i];
    var batch := Batch(e, s.done);
    ScoreTallies(e, cap, parent.text, batch, parent.train, s.calls, s.judged);
    ScoreGrows(e, cap, parent.text, batch, parent.train, s.calls, s.judged);
    var scored := Score(e, cap, parent.text, batch, parent.train, s.calls, s.judged);
    var s1 := s.(candidates := s.candidates[i := parent.(train := scored.scores)], calls := scored.calls,
                 judged := scored.judged);
    var proposal := e.reflect(parent.text, Feedback(parent.text, batch, s1.judged));
    if proposal.Some? {
      TrialTallies(e, cap, s1, i, proposal.value);
      TrialGrows(e, cap, s1, i, proposal.value);
    }
  }

  lemma {:induction false} LoopStaysWithin(e: Experiment, cap: Cap, rounds: nat, s: State, file: Option<State>)
    requires Proper(e) && s.candidates != [] && (cap.Some? ==> s.calls <= cap.value)
    ensures cap.Some? ==> Loop(e, cap, rounds, s, file).state.calls <= cap.value
    decreases if rounds > s.done then rounds - s.done else 0
  {
    hide Round;
    if s.done < rounds && !Capped(cap, s.calls) {
      RoundKeepsPool(e, cap, s);
      RoundStopsAtCap(e, cap, s);
      var r := Round(e, cap, s);
      if r.ending.Completed? {
        LoopStaysWithin(e, cap, rounds, r.state, Some(r.state));
      }
    }
  }

  /**
    `metric_calls` of the run that finishes, interrupted before or not, is the number of pairs it holds
    judgments for, and within the cap.  What earlier legs spent and never saved is not in it.
   */
  lemma {:induction false} CounterCountsJudgments(e: Experiment, legs: seq<Leg>, cap: Cap, rounds: nat)
    requires Proper(e)
    requires forall i :: 0 <= i < |legs| ==> Within(legs[i].cap, cap) && legs[i].rounds <= rounds
    ensures var s := Resume(e, cap, rounds, Saved(e, legs)).state;
            Tallied(s) && (cap.Some? ==> s.calls <= cap.value)
  {
    hide Loop;
    SavedStateContinues(e, legs, cap, rounds);
    ResumeTallies(e, Leg(cap, rounds), None);
    var s := Fresh(e);
    ScoreGrows(e, cap, e.template, e.valIds, map[], 0, map[]);
    var scored := Score(e, cap, e.template, e.valIds, map[], 0, map[]);
    LoopStaysWithin(e, cap, rounds, s.(candidates := s.candidates[0 := s.candidates[0].(val := scored.scores)],
                                       calls := scored.calls, judged := scored.judged), None);
  }

  // ----------------------------------------------- what interruptions cost

  /**
    How many judgments a loop leaves behind unsaved, `pending` of them made before it: those made since the
    last save when it stops at the round limit or at the cap, or at the cap before a reflection.
   */
  function LoopLost(e: Experiment, cap: Cap, rounds: nat, s: State, pending: nat): nat
    requires Proper(e) && s.candidates != []
    decreases if rounds > s.done then rounds - s.done else 0
  {
    if s.done >= rounds || Capped(cap, s.calls) then pending
    else
      RoundKeepsPool(e, cap, s);
      var r := Round(e, cap, s);
      match r.ending
      case Completed => LoopLost(e, cap, rounds, r.state, 0)
      case Cut => 0
      case CutUnsaved => pending + if r.state.calls > s.calls then r.state.calls - s.calls else 0
  }

  /** The judgments one leg made and did not save: a completed baseline is not saved by itself either. */
  function Lost(e: Experiment, leg: Leg, file: Option<State>): nat
    requires Proper(e)
  {
    var s := Opened(e, file);
    var seed := s.candidates[0];
    if HasAll(seed.val, e.valIds) then LoopLost(e, leg.cap, leg.rounds, s, 0)
    else
      var scored := Score(e, leg.cap, seed.text, e.valIds, seed.val, s.calls, s.judged);
      var s1 := s.(candidates := s.candidates[0 := seed.(val := scored.scores)], calls := scored.calls,
                   judged := scored.judged);
      if !scored.complete then 0
      else LoopLost(e, leg.cap, leg.rounds, s1, if s1.calls > s.calls then s1.calls - s.calls else 0)
  }

  function After(e: Experiment, leg: Leg, file: Option<State>): Finished
    requires Proper(e)
  {
    Resume(e, leg.cap, leg.rounds, file)
  }

  /** How often the metric really ran, over all legs. */
  function Spent(e: Experiment, legs: seq<Leg>): int
    requires Proper(e)
  {
    if legs == [] then 0
    else
      var earlier := legs[..|legs| - 1];
      Spent(e, earlier) + After(e, legs[|legs| - 1], Saved(e, earlier)).state.calls - Opened(e, Saved(e, earlier)).calls
  }

  function LostBy(e: Experiment, legs: seq<Leg>): nat
    requires Proper(e)
  {
    if legs == [] then 0
    else LostBy(e, legs[..|legs| - 1]) + Lost(e, legs[|legs| - 1], Saved(e, legs[..|legs| - 1]))
  }

  lemma {:induction false} LoopTallies(e: Experiment, cap: Cap, rounds: nat, s: State, file: Option<State>)
    requires Proper(e) && s.candidates != [] && Tallied(s) && Tallied(Opened(e, file))
             && s.calls >= Opened(e, file).calls
    ensures var f := Loop(e, cap, rounds, s, file);
            && Tallied(f.state) && Tallied(Opened(e, f.file))
            && f.state.calls == Opened(e, f.file).calls + LoopLost(e, cap, rounds, s, s.calls - Opened(e, file).calls)
    decreases if rounds > s.done then rounds - s.done else 0
  {
    hide Round;
    if s.done < rounds && !Capped(cap, s.calls) {
      RoundKeepsPool(e, cap, s);
      RoundTallies(e, cap, s);
      var r := Round(e, cap, s);
      if r.ending.Completed? {
        LoopTallies(e, cap, rounds, r.state, Some(r.state));
      }
    }
  }

  lemma {:induction false} BaselineTallies(e: Experiment, cap: Cap, s: State)
    requires s.candidates != [] && Tallied(s)
    ensures var seed := s.candidates[0];
            var scored := Score(e, cap, seed.text, e.valIds, seed.val, s.calls, s.judged);
            var s1 := s.(candidates := s.candidates[0 := seed.(val := scored.scores)], calls := scored.calls,
                         judged := scored.judged);
            Tallied(s1) && s1.calls >= s.calls
  {
    hide Score;
    var seed := s.candidates[0];
    ScoreTallies(e, cap, seed.text, e.valIds, seed.val, s.calls, s.judged);
    ScoreGrows(e, cap, seed.text, e.valIds, seed.val, s.calls, s.judged);
  }

  /** What a leg knows at its end is what it saved and what it lost. */
  lemma {:induction false} ResumeTallies(e: Experiment, leg: Leg, file: Option<State>)
    requires Proper(e) && Tallied(Opened(e, file))
    ensures var f := After(e, leg, file);
            && Tallied(f.state) && Tallied(Opened(e, f.file))
            && f.state.calls == Opened(e, f.file).calls + Lost(e, leg, file)
  {
    hide Loop;
    hide LoopLost;
    hide Score;
    hide HasAll;
    hide Tallied;
    var s := Opened(e, file);
    var seed := s.candidates[0];
    if HasAll(seed.val, e.valIds) {
      LoopTallies(e, leg.cap, leg.rounds, s, file);
    } else {
      var scored := Score(e, leg.cap, seed.text, e.valIds, seed.val, s.calls, s.judged);
      var s1 := s.(candidates := s.candidates[0 := seed.(val := scored.scores)], calls := scored.calls,
                   judged := scored.judged);
      BaselineTallies(e, leg.cap, s);
      if scored.complete {
        LoopTallies(e, leg.cap, leg.rounds, s1, file);
      }
    }
  }

  /** Every call the legs made is in the file they leave, or was lost by one of them. */
  lemma {:induction false} SpentIsSavedPlusLost(e: Experiment, legs: seq<Leg>)
    requires Proper(e)
    ensures Tallied(Opened(e, Saved(e, legs)))
    ensures Spent(e, legs) == Opened(e, Saved(e, legs)).calls + LostBy(e, legs)
    decreases |legs|
  {
    hide Resume;
    hide Lost;
    if legs != [] {
      var earlier := legs[..|legs| - 1];
      SpentIsSavedPlusLost(e, earlier);
      ResumeTallies(e, legs[|legs| - 1], Saved(e, earlier));
    }
  }

  lemma {:induction false} LostByNone(e: Experiment, legs: seq<Leg>)
    requires Proper(e)
    ensures LostBy(e, legs) == 0 <==> forall i :: 0 <= i < |legs| ==> Lost(e, legs[i], Saved(e, legs[..i])) == 0
    decreases |legs|
  {
    hide Lost;
    hide Saved;
    if legs != [] {
      var earlier := legs[..|legs| - 1];
      LostByNone(e, earlier);
      assert forall i :: 0 <= i < |earlier| ==> earlier[..i] == legs[..i];
      assert forall i :: 0 <= i < |earlier| ==> earlier[i] == legs[i];
    }
  }

  /**
    Over any legs and a last one, under whatever caps, the metric ran as often as there are pairs the last one holds
    judgments for and judgments the earlier legs lost; so as often as the last one holds pairs exactly when none of
    them stopped, with judgments unsaved, where nothing is saved.
   */
  lemma {:induction false} SpentIsJudgedPlusLost(e: Experiment, legs: seq<Leg>, last: Leg)
    requires Proper(e)
    ensures var judged := After(e, last, Saved(e, legs)).state.judged;
            && Spent(e, legs + [last]) == |judged| + LostBy(e, legs)
            && (Spent(e, legs + [last]) == |judged|
                <==> forall i :: 0 <= i < |legs| ==> Lost(e, legs[i], Saved(e, legs[..i])) == 0)
  {
    hide Resume;
    hide Lost;
    hide Saved;
    SpentIsSavedPlusLost(e, legs);
    ResumeTallies(e, last, Saved(e, legs));
    LostByNone(e, legs);
    assert (legs + [last])[..|legs|] == legs;
  }

  // ---------------------------------------------------- pairs judged twice

  /** The pairs a leg ran the metric on, each once. */
  function JudgedIn(e: Experiment, leg: Leg, file: Option<State>): set<Key>
    requires Proper(e)
  {
    After(e, leg, file).state.judged.Keys - Opened(e, file).judged.Keys
  }

  lemma {:induction false} LoopExtends(e: Experiment, cap: Cap, rounds: nat, s: State, file: Option<State>)
    requires Proper(e) && s.candidates != []
    ensures var f := Loop(e, cap, rounds, s, file);
            && Extends(s.judged, f.state.judged)
            && (f.file == file
                || (Extends(s.judged, Opened(e, f.file).judged) && Extends(Opened(e, f.file).judged, f.state.judged)))
    decreases if rounds > s.done then rounds - s.done else 0
  {
    hide Round;
    if s.done < rounds && !Capped(cap, s.calls) {
      RoundKeepsPool(e, cap, s);
      RoundStopsAtCap(e, cap, s);
      var r := Round(e, cap, s);
      if r.ending.Completed? {
        LoopExtends(e, cap, rounds, r.state, Some(r.state));
      }
    }
  }

  /** A leg opens with what the file held, and leaves in the file no less than that and no more than it knows. */
  lemma {:induction false} ResumeExtends(e: Experiment, leg: Leg, file: Option<State>)
    requires Proper(e)
    ensures var f := After(e, leg, file);
            Extends(Opened(e, file).judged, Opened(e, f.file).judged)
              && Extends(Opened(e, f.file).judged, f.state.judged)
  {
    hide Loop;
    hide Score;
    hide HasAll;
    var s := Opened(e, file);
    var seed := s.candidates[0];
    ScoreGrows(e, leg.cap, seed.text, e.valIds, seed.val, s.calls, s.judged);
    var scored := Score(e, leg.cap, seed.text, e.valIds, seed.val, s.calls, s.judged);
    var s1 := s.(candidates := s.candidates[0 := seed.(val := scored.scores)], calls := scored.calls,
                 judged := scored.judged);
    LoopExtends(e, leg.cap, leg.rounds, s, file);
    LoopExtends(e, leg.cap, leg.rounds, s1, file);
  }

  /** A leg that lost nothing saved every pair it knows; one that lost something did not. */
  lemma {:induction false} LostIsUnsaved(e: Experiment, leg: Leg, file: Option<State>)
    requires Proper(e) && Tallied(Opened(e, file))
    ensures var f := After(e, leg, file);
            Lost(e, leg, file) == 0 <==> Opened(e, f.file).judged.Keys == f.state.judged.Keys
  {
    hide Resume;
    hide Lost;
    hide Opened;
    ResumeTallies(e, leg, file);
    ResumeExtends(e, leg, file);
    var f := After(e, leg, file);
    SameSizeSameKeys(Opened(e, f.file).judged, f.state.judged);
  }

  lemma SameSizeSameKeys(a: Judged, b: Judged)
    requires Extends(a, b)
    ensures |a| == |b| <==> a.Keys == b.Keys
  {
    assert |a| == |a.Keys| && |b| == |b.Keys|;
    if |a| == |b| {
      assert |b.Keys - a.Keys| == 0;
    }
  }

  /** A round that stops before its reflection has judged nothing the larger cap would not have judged there. */
  lemma {:induction false} UnsavedRoundUnderMore(e: Experiment, small: Cap, large: Cap, s: State)
    requires Proper(e) && s.candidates != [] && Within(small, large) && Round(e, small, s).ending.CutUnsaved?
    ensures Extends(Round(e, small, s).state.judged, Round(e, large, s).state.judged)
  {
    hide Score;
    hide Trial;
    hide Parent;
    var i := Parent(s.candidates, e.valIds, e.draw(s.done));
    var parent := s.candidates[i];
    var batch := Batch(e, s.done);
    ScoreUnderMore(e, small, large, parent.text, batch, parent.train, s.calls, s.judged);
    var scored := Score(e, small, parent.text, batch, parent.train, s.calls, s.judged);
    var s1 := s.(candidates := s.candidates[i := parent.(train := scored.scores)], calls := scored.calls,
                 judged := scored.judged);
    var proposal := e.reflect(parent.text, Feedback(parent.text, batch, s1.judged));
    if proposal.Some? {
      TrialGrows(e, small, s1, i, proposal.value);
      TrialGrows(e, large, s1, i, proposal.value);
    }
  }

  /** Every pair a loop judges under smaller limits it judges under larger ones too. */
  lemma {:induction false} LoopJudgesLess(e: Experiment, small: Cap, large: Cap, few: nat, many: nat, s: State,
                                          file: Option<State>, g: Option<State>)
    requires Proper(e) && s.candidates != [] && Within(small, large) && few <= many
    ensures Extends(Loop(e, small, few, s, file).state.judged, Loop(e, large, many, s, g).state.judged)
    decreases if few > s.done then few - s.done else 0
  {
    hide Round;
    LoopExtends(e, large, many, s, g);
    if s.done < few && !Capped(small, s.calls) {
      var r := Round(e, small, s);
      RoundKeepsPool(e, small, s);
      if r.ending.Completed? {
        RoundUnderMore(e, small, large, s);
        LoopJudgesLess(e, small, large, few, many, r.state, Some(r.state), Some(r.state));
      } else if r.ending.Cut? {
        CutResumes(e, small, large, many, s, g);
        LoopExtends(e, large, many, r.state, g);
      } else {
        UnsavedRoundUnderMore(e, small, large, s);
        var more := Round(e, large, s);
        RoundKeepsPool(e, large, s);
        if more.ending.Completed? {
          LoopExtends(e, large, many, more.state, Some(more.state));
        }
      }
    }
  }

  lemma {:induction false} ResumeJudgesLess(e: Experiment, leg: Leg, last: Leg, file: Option<State>)
    requires Proper(e) && Within(leg.cap, last.cap) && leg.rounds <= last.rounds
    ensures Extends(After(e, leg, file).state.judged, After(e, last, file).state.judged)
  {
    hide Loop;
    hide Score;
    hide HasAll;
    var s := Opened(e, file);
    var seed := s.candidates[0];
    if HasAll(seed.val, e.valIds) {
      LoopJudgesLess(e, leg.cap, last.cap, leg.rounds, last.rounds, s, file, file);
    } else {
      var r := Score(e, leg.cap, seed.text, e.valIds, seed.val, s.calls, s.judged);
      var more := Score(e, last.cap, seed.text, e.valIds, seed.val, s.calls, s.judged);
      var s1 := s.(candidates := s.candidates[0 := seed.(val := r.scores)], calls := r.calls, judged := r.judged);
      if r.complete {
        ScoreUnderMore(e, leg.cap, last.cap, seed.text, e.valIds, seed.val, s.calls, s.judged);
        LoopJudgesLess(e, leg.cap, last.cap, leg.rounds, last.rounds, s1, file, file);
      } else {
        ScoreResumes(e, leg.cap, last.cap, seed.text, e.valIds, seed.val, s.calls, s.judged, seed.val);
        ScoreGrows(e, last.cap, seed.text, e.valIds, seed.val, r.calls, r.judged);
        assert Extends(r.judged, more.judged);
        var s2 := s.(candidates := s.candidates[0 := seed.(val := more.scores)], calls := more.calls,
                     judged := more.judged);
        LoopExtends(e, last.cap, last.rounds, s2, file);
      }
    }
  }

  predicate Dominates(last: Leg, legs: seq<Leg>) {
    forall i :: 0 <= i < |legs| ==> Within(legs[i].cap, last.cap) && legs[i].rounds <= last.rounds
  }

  /** Two legs, or an earlier one and the last, ran the metric on the same pair. */
  ghost predicate JudgedTwice(e: Experiment, all: seq<Leg>)
    requires Proper(e)
  {
    exists i, j, key :: 0 <= i < j < |all| && JudgedBy(e, all, i, key) && JudgedBy(e, all, j, key)
  }

  predicate JudgedBy(e: Experiment, all: seq<Leg>, i: nat, key: Key)
    requires Proper(e) && i < |all|
  {
    key in JudgedIn(e, all[i], Saved(e, all[..i]))
  }

  /** What the file holds before leg `i`. */
  function Known(e: Experiment, all: seq<Leg>, i: nat): set<Key>
    requires Proper(e) && i <= |all|
  {
    Opened(e, Saved(e, all[..i])).judged.Keys
  }

  /** The file after a leg holds what it held before, and of the rest only what that leg judged. */
  lemma KnownStep(e: Experiment, all: seq<Leg>, i: nat)
    requires Proper(e) && i < |all|
    ensures Known(e, all, i) <= Known(e, all, i + 1)
    ensures forall key :: key in Known(e, all, i + 1) && key !in Known(e, all, i) ==> JudgedBy(e, all, i, key)
  {
    hide Resume;
    assert all[..i + 1][..i] == all[..i];
    ResumeExtends(e, all[i], Saved(e, all[..i]));
  }

  lemma {:induction false} KnownGrows(e: Experiment, all: seq<Leg>, i: nat, j: nat)
    requires Proper(e) && i <= j <= |all|
    ensures Known(e, all, i) <= Known(e, all, j)
    decreases j
  {
    hide Known;
    if i < j {
      KnownGrows(e, all, i, j - 1);
      KnownStep(e, all, j - 1);
    }
  }

  /** A pair that came into the file between two legs was judged by one of those between. */
  lemma {:induction false} CameFromSomeLeg(e: Experiment, all: seq<Leg>, i: nat, j: nat, key: Key) returns (k: nat)
    requires Proper(e) && i <= j <= |all| && key !in Known(e, all, i) && key in Known(e, all, j)
    ensures i <= k < j && JudgedBy(e, all, k, key)
    decreases j
  {
    hide Known;
    hide JudgedBy;
    if i == j {
      k := i;
    } else if key in Known(e, all, j - 1) {
      k := CameFromSomeLeg(e, all, i, j - 1, key);
    } else {
      k := j - 1;
      KnownStep(e, all, j - 1);
    }
  }

  lemma {:induction false} TalliedBefore(e: Experiment, all: seq<Leg>, i: nat)
    requires Proper(e) && i < |all|
    ensures Tallied(Opened(e, Saved(e, all[..i])))
    ensures Lost(e, all[i], Saved(e, all[..i])) == 0
            <==> Known(e, all, i + 1) == After(e, all[i], Saved(e, all[..i])).state.judged.Keys
  {
    hide Resume;
    hide Lost;
    SpentIsSavedPlusLost(e, all[..i]);
    LostIsUnsaved(e, all[i], Saved(e, all[..i]));
    assert all[..i + 1][..i] == all[..i];
  }

  /** If every earlier leg saved all it judged, no later leg judges any of it. */
  lemma NothingLostNothingTwice(e: Experiment, all: seq<Leg>)
    requires Proper(e)
    requires forall i :: 0 <= i < |all| - 1 ==> Lost(e, all[i], Saved(e, all[..i])) == 0
    ensures !JudgedTwice(e, all)
  {
    hide After;
    hide Saved;
    hide Lost;
    forall i, j, key | 0 <= i < j < |all| && JudgedBy(e, all, i, key)
      ensures !JudgedBy(e, all, j, key)
    {
      TalliedBefore(e, all, i);
      KnownGrows(e, all, i + 1, j);
    }
  }

  /** A lost pair is judged again by a later leg, at the latest by a last one that dominates them all. */
  lemma LostIsJudgedAgain(e: Experiment, legs: seq<Leg>, last: Leg, i: nat)
    requires Proper(e) && Dominates(last, legs) && i < |legs| && Lost(e, legs[i], Saved(e, legs[..i])) > 0
    ensures JudgedTwice(e, legs + [last])
  {
    hide After;
    hide Lost;
    hide Saved;
    var all := legs + [last];
    var n := |legs|;
    assert all[..i] == legs[..i] && all[i] == legs[i] && all[..n] == legs && all[n] == last;
    TalliedBefore(e, all, i);
    KnownStep(e, all, i);
    SavedWithinState(e, all, i);
    var key :| key in After(e, all[i], Saved(e, all[..i])).state.judged && key !in Known(e, all, i + 1);
    assert JudgedBy(e, all, i, key);
    LastJudgesAll(e, legs, last, i);
    var j: nat;
    if key in Known(e, all, n) {
      j := CameFromSomeLeg(e, all, i + 1, n, key);
    } else {
      j := n;
      assert JudgedBy(e, all, n, key);
    }
    assert JudgedBy(e, all, i, key) && JudgedBy(e, all, j, key);
  }

  lemma SavedWithinState(e: Experiment, all: seq<Leg>, i: nat)
    requires Proper(e) && i < |all|
    ensures Known(e, all, i + 1) <= After(e, all[i], Saved(e, all[..i])).state.judged.Keys
  {
    hide Resume;
    assert all[..i + 1][..i] == all[..i];
    ResumeExtends(e, all[i], Saved(e, all[..i]));
  }

  lemma LastJudgesAll(e: Experiment, legs: seq<Leg>, last: Leg, i: nat)
    requires Proper(e) && Dominates(last, legs) && i < |legs|
    ensures After(e, legs[i], Saved(e, legs[..i])).state.judged.Keys <= After(e, last, Saved(e, legs)).state.judged.Keys
  {
    hide Resume;
    hide Saved;
    ResumeJudgesLess(e, legs[i], last, Saved(e, legs[..i]));
    SavedStateContinues(e, legs[..i], last.cap, last.rounds);
    SavedStateContinues(e, legs, last.cap, last.rounds);
  }

  /**
    When the last leg has no smaller limits than any before it, no pair is judged twice over all of them exactly when no
    earlier leg stopped, with judgments unsaved, where nothing is saved.
   */
  lemma NothingTwiceExactly(e: Experiment, legs: seq<Leg>, last: Leg)
    requires Proper(e) && Dominates(last, legs)
    ensures !JudgedTwice(e, legs + [last])
            <==> forall i :: 0 <= i < |legs| ==> Lost(e, legs[i], Saved(e, legs[..i])) == 0
  {
    hide JudgedTwice;
    hide Lost;
    hide Saved;
    var all := legs + [last];
    assert forall i :: 0 <= i < |legs| ==> all[i] == legs[i] && all[..i] == legs[..i];
    if forall i :: 0 <= i < |legs| ==> Lost(e, legs[i], Saved(e, legs[..i])) == 0 {
      NothingLostNothingTwice(e, all);
    } else {
      var i :| 0 <= i < |legs| && Lost(e, legs[i], Saved(e, legs[..i])) != 0;
      LostIsJudgedAgain(e, legs, last, i);
    }
  }

  /** A leg pays for each pair it judges once: its calls are the size of that set. */
  lemma PaidOnce(e: Experiment, leg: Leg, file: Option<State>)
    requires Proper(e) && Tallied(Opened(e, file))
    ensures After(e, leg, file).state.calls - Opened(e, file).calls == |JudgedIn(e, leg, file)|
  {
    hide Resume;
    hide Opened;
    ResumeTallies(e, leg, file);
    ResumeExtends(e, leg, file);
    var before, after := Opened(e, file).judged.Keys, After(e, leg, file).state.judged.Keys;
    assert before <= after && after == before + (after - before);
    assert |before| == |Opened(e, file).judged| && |after| == |After(e, leg, file).state.judged|;
  }

  /** Under smaller limits the last leg need not come to a lost pair: one judgment in all, lost, and none twice. */
  lemma LostAndNeverJudgedAgain(e: Experiment, v: ExampleId)
    requires Proper(e) && e.valIds == [v]
    ensures var first, last := Leg(Some(1), 1), Leg(Some(0), 0);
            Lost(e, first, None) == 1 && Spent(e, [first, last]) == 1 && JudgedIn(e, last, Saved(e, [first])) == {}
  {
    var first, last := Leg(Some(1), 1), Leg(Some(0), 0);
    BaselineJudgedTwice(e, v);
    assert [first][..0] == [] && [first, last][..1] == [first];
    hide Saved;
    assert Score(e, last.cap, e.template, [v], map[], 0, map[]) == Scored(map[], 0, map[], false);
    assert After(e, last, None).state.judged == map[];
    SpentIsSavedPlusLost(e, [first]);
  }

  /**
    One validation example and a cap of one: the baseline of the first leg is not saved, and the
    second makes it again.
   */
  lemma {:induction false} BaselineJudgedTwice(e: Experiment, v: ExampleId)
    requires Proper(e) && e.valIds == [v]
    ensures var leg := Leg(Some(1), 1);
            && Saved(e, [leg]) == None
            && (e.template, v) in After(e, leg, None).state.judged
            && Lost(e, leg, None) == 1
            && Spent(e, [leg, leg]) == 2
            && |After(e, leg, Saved(e, [leg])).state.judged| == 1
  {
    var leg := Leg(Some(1), 1);
    var s := Fresh(e);
    var j := e.judge(e.template, v);
    assert Score(e, leg.cap, e.template, [v][1..], map[v := j.score], 1, map[(e.template, v) := j])
        == Scored(map[v := j.score], 1, map[(e.template, v) := j], true);
    assert Score(e, leg.cap, e.template, [v], map[], 0, map[])
           == Scored(map[v := j.score], 1, map[(e.template, v) := j], true);
    assert [leg][..0] == [];
    assert [leg, leg][..1] == [leg];
    assert Spent(e, [leg]) == 1;
  }

  // --------------------------------------------------------------- progress

  /** The examples a text has no judgment for yet. */
  function Unjudged(text: string, ids: seq<ExampleId>, judged: Judged): set<ExampleId> {
    set id | id in ids && (text, id) !in judged
  }

  /** Scoring completes exactly when the cap leaves one call for each of them. */
  lemma {:induction false} ScoreCompletes(e: Experiment, cap: Cap, text: string, ids: seq<ExampleId>,
                                          scores: map<ExampleId, real>, calls: nat, judged: Judged)
    ensures Score(e, cap, text, ids, scores, calls, judged).complete
            <==> var missing := Unjudged(text, ids, judged);
                 missing == {} || cap.None? || calls + |missing| <= cap.value
    decreases |ids|
  {
    if ids != [] {
      var key := (text, ids[0]);
      var missing := Unjudged(text, ids, judged);
      if key in judged {
        assert missing == Unjudged(text, ids[1..], judged);
        ScoreCompletes(e, cap, text, ids[1..], scores[ids[0] := judged[key].score], calls, judged);
      } else {
        assert ids[0] in missing;
        var j := e.judge(text, ids[0]);
        var rest := Unjudged(text, ids[1..], judged[key := j]);
        assert missing == rest + {ids[0]};
        if !Capped(cap, calls) {
          ScoreCompletes(e, cap, text, ids[1..], scores[ids[0] := j.score], calls + 1, judged[key := j]);
        }
      }
    }
  }

  /** The cap leaves one call for each distinct validation example. */
  predicate CoversBaseline(e: Experiment, cap: Cap) {
    cap.None? || cap.value >= |set id | id in e.valIds|
  }

  /**
    However it was interrupted, a run ends with every candidate scored on every validation example exactly when
    its cap covers the baseline; and then its best validation mean is at least the seed template's.
   */
  lemma {:induction false} BestNeverFallsBelowSeed(e: Experiment, legs: seq<Leg>, cap: Cap, rounds: nat)
    requires Proper(e)
    requires forall i :: 0 <= i < |legs| ==> Within(legs[i].cap, cap) && legs[i].rounds <= rounds
    ensures var pool := Resume(e, cap, rounds, Saved(e, legs)).state.candidates;
            && pool != []
            && (AllScored(pool, e.valIds) <==> CoversBaseline(e, cap))
            && (CoversBaseline(e, cap)
                ==> BestMean(pool, e.valIds) >= Mean(Score(e, None, e.template, e.valIds, map[], 0, map[]).scores,
                                                     e.valIds))
  {
    hide Loop;
    hide BestMean;
    hide Score;
    SavedStateContinues(e, legs, cap, rounds);
    var scored := Score(e, cap, e.template, e.valIds, map[], 0, map[]);
    ScoreGrows(e, cap, e.template, e.valIds, map[], 0, map[]);
    ScoreUnderMore(e, cap, None, e.template, e.valIds, map[], 0, map[]);
    ScoreCompletes(e, cap, e.template, e.valIds, map[], 0, map[]);
    assert Unjudged(e.template, e.valIds, map[]) == set id | id in e.valIds;
    assert e.valIds[0] in Unjudged(e.template, e.valIds, map[]);
    var s := Fresh(e);
    var s1 := s.(candidates := s.candidates[0 := s.candidates[0].(val := scored.scores)], calls := scored.calls,
                 judged := scored.judged);
    assert scored.complete || !HasAll(s1.candidates[0].val, e.valIds);
    if scored.complete {
      LoopKeepsScored(e, cap, rounds, s1, None);
      OnlyOneWins(s1.candidates, e.valIds);
    }
  }

  lemma {:induction false} OnlyOneWins(pool: Pool, ids: seq<ExampleId>)
    requires |pool| == 1
    ensures BestMean(pool, ids) == Mean(pool[0].val, ids)
  {
  }

  /** The returned text is that of a candidate nobody has a better mean than, and the gap is how much it loses there. */
  lemma ResultIsTheBest(e: Experiment, s: State)
    requires s.candidates != []
    ensures var r := ResultOf(e, s);
            && r.candidates == s.candidates && r.metricCalls == s.calls && r.roundsRun == s.done
            && exists i :: 0 <= i < |s.candidates|
                 && r.best == s.candidates[i].text
                 && r.gap == Mean(s.candidates[i].train, e.trainIds) - Mean(s.candidates[i].val, e.valIds)
                 && forall k :: 0 <= k < |s.candidates| ==>
                      var mine, other := Mean(s.candidates[i].val, e.valIds), Mean(s.candidates[k].val, e.valIds);
                      mine > other || (mine == other && |s.candidates[i].text| <= |s.candidates[k].text|)
  {
    hide Mean;
    var w := Winner(s.candidates, e.valIds);
    forall k | 0 <= k < |s.candidates|
      ensures var mine, other := Mean(s.candidates[w].val, e.valIds), Mean(s.candidates[k].val, e.valIds);
              mine > other || (mine == other && |s.candidates[w].text| <= |s.candidates[k].text|)
    {
      assert Wins(s.candidates, w, k, e.valIds);
    }
  }
}
