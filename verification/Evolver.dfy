/** `evolve_prompt` as the loops and updates it is, proved against `Evolution.Resume`. */
module Evolver {
  import opened Wrappers
  import opened Pareto
  import opened Evolution

  /** The seeded generator: each call uses up the next draw. */
  class Random {
    const draws: nat -> Draw
    var used: nat

    constructor (draws: nat -> Draw)
      ensures this.draws == draws && used == 0
    {
      this.draws, used := draws, 0;
    }

    method Next() returns (r: Draw)
      modifies this
      ensures r == draws(old(used)) && used == old(used) + 1
    {
      r := draws(used);
      used := used + 1;
    }
  }

  class StateFile {
    var content: Option<State>

    constructor (content: Option<State>)
      ensures this.content == content
    {
      this.content := content;
    }
  }

  class Evolver {
    const e: Experiment
    const cap: Cap
    const file: StateFile
    const rng: Random
    var candidates: Pool
    var metricCalls: nat
    var completedRounds: nat
    var judgments: Judged

    constructor (e: Experiment, cap: Cap, file: StateFile)
      ensures this.e == e && this.cap == cap && this.file == file
      ensures fresh(rng) && rng.draws == e.draw && rng.used == 0
      ensures Current() == Fresh(e)
    {
      this.e, this.cap, this.file := e, cap, file;
      rng := new Random(e.draw);
      candidates, metricCalls, completedRounds := [Candidate(e.template, None, map[], map[], 0)], 0, 0;
      judgments := map[];
    }

    ghost function Current(): State
      reads this
    {
      State(candidates, metricCalls, completedRounds, judgments)
    }

    method PersistState()
      modifies file
      ensures file.content == Some(Current())
    {
      file.content := Some(State(candidates, metricCalls, completedRounds, judgments));
    }

    /** `score_items`: fills in scores from judgments, judging what was not judged, until the cap. */
    method ScoreItems(text: string, ids: seq<ExampleId>, scores: map<ExampleId, real>)
      returns (updated: map<ExampleId, real>, complete: bool)
      modifies this`metricCalls, this`judgments
      ensures Scored(updated, metricCalls, judgments, complete)
           == Score(e, cap, text, ids, scores, old(metricCalls), old(judgments))
    {
      updated := scores;
      var i := 0;
      while i < |ids|
        invariant 0 <= i <= |ids|
        invariant Score(e, cap, text, ids[i..], updated, metricCalls, judgments)
               == Score(e, cap, text, ids, scores, old(metricCalls), old(judgments))
      {
        assert ids[i..][0] == ids[i] && ids[i..][1..] == ids[i + 1..];
        var key := (text, ids[i]);
        var judgment;
        if key in judgments {
          judgment := judgments[key];
        } else {
          if Capped(cap, metricCalls) {
            return updated, false;
          }
          judgment := e.judge(text, ids[i]);
          metricCalls := metricCalls + 1;
          judgments := judgments[key := judgment];
        }
        updated := updated[ids[i] := judgment.score];
        i := i + 1;
      }
      complete := true;
    }

    /** What a completed round writes before the next one. */
    method CompleteRound()
      modifies this`completedRounds, file
      ensures completedRounds == old(completedRounds) + 1 && file.content == Some(Current())
    {
      completedRounds := completedRounds + 1;
      PersistState();
    }

    /** The candidate on trial: batch, all training examples, validation examples, then the pool. */
    method TryCandidate(parentIndex: nat, text: string) returns (ending: Ending)
      requires Proper(e) && parentIndex < |candidates|
      modifies this, file
      ensures Rounded(Current(), ending) == Trial(e, cap, old(Current()), parentIndex, text)
      ensures file.content == Some(Current()) && !ending.CutUnsaved?
    {
      hide Score;
      hide Mean;
      hide Pruned;
      var parent := candidates[parentIndex];
      var batch := Batch(e, completedRounds);
      var candidateTrain, complete := ScoreItems(text, batch, map[]);
      if !complete {
        PersistState();
        return Cut;
      }
      if NoWorse(candidateTrain, parent.train, batch) {
        var fullTrain, candidateVal;
        fullTrain, complete := ScoreItems(text, e.trainIds, candidateTrain);
        if !complete {
          PersistState();
          return Cut;
        }
        candidateVal, complete := ScoreItems(text, e.valIds, map[]);
        if !complete {
          PersistState();
          return Cut;
        }
        if Mean(candidateVal, e.valIds) >= Mean(parent.val, e.valIds) {
          candidates := candidates + [Candidate(text, Some(parentIndex), fullTrain, candidateVal, completedRounds + 1)];
          candidates := Pruned(candidates, e.valIds);
        }
      }
      CompleteRound();
      return Completed;
    }

    /** The body of the round loop, entered below the cap. */
    method RunRound() returns (ending: Ending)
      requires Proper(e) && candidates != [] && rng.draws == e.draw && rng.used == completedRounds
      modifies this, file, rng
      ensures Rounded(Current(), ending) == Round(e, cap, old(Current()))
      ensures file.content == if ending.CutUnsaved? then old(file.content) else Some(Current())
      ensures rng.used == old(rng.used) + 1
    {
      hide Score;
      hide Parent;
      hide Trial;
      hide Feedback;
      var draw := rng.Next();
      var parentIndex := ChooseParent(candidates, e.valIds, draw);
      var parent := candidates[parentIndex];
      var batch := Batch(e, completedRounds);
      var parentTrain, complete := ScoreItems(parent.text, batch, parent.train);
      parent := parent.(train := parentTrain);
      candidates := candidates[parentIndex := parent];
      if !complete {
        PersistState();
        return Cut;
      }
      if AllPerfect(parent.train, batch) {
        CompleteRound();
        return Completed;
      }
      if Capped(cap, metricCalls) {
        return CutUnsaved;
      }
      var proposal := e.reflect(parent.text, Feedback(parent.text, batch, judgments));
      if proposal.None? {
        CompleteRound();
        return Completed;
      }
      ending := TryCandidate(parentIndex, proposal.value);
    }

    /** `evolve_prompt`: restore, replay the generator, establish the baseline, run the rounds. */
    method EvolvePrompt(rounds: nat)
      requires Proper(e) && rng.draws == e.draw && rng.used == 0 && Current() == Fresh(e)
      modifies this, file, rng
      ensures Finished(Current(), file.content) == Resume(e, cap, rounds, old(file.content))
    {
      hide Score;
      hide Round;
      var restored := file.content;
      if restored.Some? && restored.value.candidates != [] {
        candidates, metricCalls := restored.value.candidates, restored.value.calls;
        completedRounds, judgments := restored.value.done, restored.value.judged;
      }
      for i := 0 to completedRounds
        invariant rng.used == i
        modifies rng
      {
        var _ := rng.Next();
      }
      var seed := candidates[0];
      if !HasAll(seed.val, e.valIds) {
        var scores, complete := ScoreItems(seed.text, e.valIds, seed.val);
        candidates := candidates[0 := seed.(val := scores)];
        if !complete {
          PersistState();
          return;
        }
      }
      while completedRounds < rounds && !Capped(cap, metricCalls)
        invariant candidates != [] && rng.used == completedRounds
        invariant Loop(e, cap, rounds, Current(), file.content) == Resume(e, cap, rounds, old(file.content))
        decreases rounds - completedRounds
      {
        RoundKeepsPool(e, cap, Current());
        var ending := RunRound();
        if !ending.Completed? {
          return;
        }
      }
    }
  }
}
