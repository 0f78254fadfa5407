/**
  The candidate pool of prompt evolution (kigumi/optimize.py): domination on the validation
  examples, pruning, the choice of a parent and the choice of the winner.  Scores are reals.
 */
module Pareto {
  import opened Wrappers
  import opened Sets

  type ExampleId = string

  datatype Candidate = Candidate(
    text: string,
    parent: Option<nat>,
    train: map<ExampleId, real>,
    val: map<ExampleId, real>,
    round: nat)

  type Pool = seq<Candidate>

  function ScoreOf(scores: map<ExampleId, real>, id: ExampleId): real {
    if id in scores then scores[id] else 0.0
  }

  predicate HasAll(scores: map<ExampleId, real>, ids: seq<ExampleId>) {
    forall i :: 0 <= i < |ids| ==> ids[i] in scores
  }

  predicate AllScored(pool: Pool, ids: seq<ExampleId>) {
    forall i :: 0 <= i < |pool| ==> HasAll(pool[i].val, ids)
  }

  // -------------------------------------------------------------- domination

  predicate AtLeast(left: Candidate, right: Candidate, ids: seq<ExampleId>) {
    forall i :: 0 <= i < |ids| ==> ScoreOf(left.val, ids[i]) >= ScoreOf(right.val, ids[i])
  }

  predicate Beats(left: Candidate, right: Candidate, ids: seq<ExampleId>) {
    exists i :: 0 <= i < |ids| && ScoreOf(left.val, ids[i]) > ScoreOf(right.val, ids[i])
  }

  predicate Ties(left: Candidate, right: Candidate, ids: seq<ExampleId>) {
    forall i :: 0 <= i < |ids| ==> ScoreOf(left.val, ids[i]) == ScoreOf(right.val, ids[i])
  }

  /** `_dominates`. */
  predicate Dominates(left: Candidate, right: Candidate, ids: seq<ExampleId>) {
    AtLeast(left, right, ids) && (Beats(left, right, ids) || (Ties(left, right, ids) && |left.text| < |right.text|))
  }

  /** Domination is a strict partial order. */
  lemma DominatesIsStrict(a: Candidate, b: Candidate, ids: seq<ExampleId>)
    ensures !Dominates(a, a, ids)
    ensures Dominates(a, b, ids) ==> !Dominates(b, a, ids)
  {
  }

  lemma DominatesIsTransitive(a: Candidate, b: Candidate, c: Candidate, ids: seq<ExampleId>)
    requires Dominates(a, b, ids) && Dominates(b, c, ids)
    ensures Dominates(a, c, ids)
  {
    if Beats(a, b, ids) {
      var i :| 0 <= i < |ids| && ScoreOf(a.val, ids[i]) > ScoreOf(b.val, ids[i]);
      assert ScoreOf(b.val, ids[i]) >= ScoreOf(c.val, ids[i]);
    } else if Beats(b, c, ids) {
      var i :| 0 <= i < |ids| && ScoreOf(b.val, ids[i]) > ScoreOf(c.val, ids[i]);
      assert ScoreOf(a.val, ids[i]) >= ScoreOf(b.val, ids[i]);
    }
  }

  // ----------------------------------------------------------------- pruning

  predicate DominatedAt(pool: Pool, i: nat, ids: seq<ExampleId>)
    requires i < |pool|
  {
    exists j :: 0 <= j < |pool| && j != i && Dominates(pool[j], pool[i], ids)
  }

  /** The survivors among the first `n`, in order. */
  function Survivors(pool: Pool, n: nat, ids: seq<ExampleId>): Pool
    requires n <= |pool|
  {
    if n == 0 then []
    else Survivors(pool, n - 1, ids) + if DominatedAt(pool, n - 1, ids) then [] else [pool[n - 1]]
  }

  /** `_prune_dominated`. */
  function Pruned(pool: Pool, ids: seq<ExampleId>): Pool {
    Survivors(pool, |pool|, ids)
  }

  lemma {:induction false} SurvivorsAre(pool: Pool, n: nat, ids: seq<ExampleId>)
    requires n <= |pool|
    ensures forall c ::
              c in Survivors(pool, n, ids) <==> exists i :: 0 <= i < n && pool[i] == c && !DominatedAt(pool, i, ids)
  {
    if n > 0 {
      SurvivorsAre(pool, n - 1, ids);
    }
  }

  /** Who dominates a candidate, by index. */
  function Dominators(pool: Pool, i: nat, ids: seq<ExampleId>): set<nat>
    requires i < |pool|
  {
    set j: nat | j < |pool| && Dominates(pool[j], pool[i], ids)
  }

  /** Above every candidate stands an undominated one: itself, or one that dominates it. */
  lemma {:induction false} SomeSurvivorAbove(pool: Pool, i: nat, ids: seq<ExampleId>) returns (j: nat)
    requires i < |pool|
    ensures j < |pool| && !DominatedAt(pool, j, ids)
    ensures j == i || Dominates(pool[j], pool[i], ids)
    decreases |Dominators(pool, i, ids)|
  {
    if !DominatedAt(pool, i, ids) {
      return i;
    }
    var k: nat :| k < |pool| && k != i && Dominates(pool[k], pool[i], ids);
    forall l | l in Dominators(pool, k, ids)
      ensures l in Dominators(pool, i, ids)
    {
      DominatesIsTransitive(pool[l], pool[k], pool[i], ids);
    }
    DominatesIsStrict(pool[k], pool[k], ids);
    assert k in Dominators(pool, i, ids) && k !in Dominators(pool, k, ids);
    ProperSubsetSize(Dominators(pool, k, ids), Dominators(pool, i, ids), k);
    j := SomeSurvivorAbove(pool, k, ids);
    if j != k {
      DominatesIsTransitive(pool[j], pool[k], pool[i], ids);
    }
  }

  /** Pruning keeps the pool non-empty, and whatever it drops is dominated by a survivor. */
  lemma DroppedIsDominated(pool: Pool, ids: seq<ExampleId>, c: Candidate)
    requires c in pool
    ensures c in Pruned(pool, ids) || exists s :: s in Pruned(pool, ids) && Dominates(s, c, ids)
    ensures Pruned(pool, ids) != []
  {
    var i :| 0 <= i < |pool| && pool[i] == c;
    var j := SomeSurvivorAbove(pool, i, ids);
    SurvivorsAre(pool, |pool|, ids);
    assert pool[j] in Pruned(pool, ids);
  }

  /** Nobody left in the pool dominates anybody else left in it. */
  lemma PrunedIsAntichain(pool: Pool, ids: seq<ExampleId>, a: Candidate, b: Candidate)
    requires a in Pruned(pool, ids) && b in Pruned(pool, ids)
    ensures !Dominates(a, b, ids)
  {
    SurvivorsAre(pool, |pool|, ids);
    var i :| 0 <= i < |pool| && pool[i] == a && !DominatedAt(pool, i, ids);
    var j :| 0 <= j < |pool| && pool[j] == b && !DominatedAt(pool, j, ids);
    DominatesIsStrict(a, a, ids);
  }

  // ------------------------------------------------------------------ maxima

  /** The best score of the pool on one example. */
  function BestOn(pool: Pool, id: ExampleId): (best: real)
    requires pool != []
    ensures exists i :: 0 <= i < |pool| && ScoreOf(pool[i].val, id) == best
    ensures forall i :: 0 <= i < |pool| ==> ScoreOf(pool[i].val, id) <= best
  {
    var last := ScoreOf(pool[|pool| - 1].val, id);
    if |pool| == 1 then last
    else
      var rest := BestOn(pool[..|pool| - 1], id);
      if rest >= last then rest else last
  }

  /** Pruning leaves the best score on every validation example as it was. */
  lemma PruningKeepsMaxima(pool: Pool, ids: seq<ExampleId>, k: nat)
    requires pool != [] && k < |ids|
    ensures Pruned(pool, ids) != [] && BestOn(Pruned(pool, ids), ids[k]) == BestOn(pool, ids[k])
  {
    var pruned := Pruned(pool, ids);
    SurvivorsAre(pool, |pool|, ids);
    var i :| 0 <= i < |pool| && ScoreOf(pool[i].val, ids[k]) == BestOn(pool, ids[k]);
    var j := SomeSurvivorAbove(pool, i, ids);
    assert pool[j] in pruned;
    var n :| 0 <= n < |pruned| && pruned[n] == pool[j];
    assert ScoreOf(pruned[n].val, ids[k]) >= BestOn(pool, ids[k]);
    var p :| 0 <= p < |pruned| && ScoreOf(pruned[p].val, ids[k]) == BestOn(pruned, ids[k]);
    assert pruned[p] in pruned;
    var q :| 0 <= q < |pool| && pool[q] == pruned[p];
    assert ScoreOf(pool[q].val, ids[k]) <= BestOn(pool, ids[k]);
  }

  // ------------------------------------------------------------------ winner

  /** The scores there are, in the order of the examples. */
  function Values(scores: map<ExampleId, real>, ids: seq<ExampleId>): seq<real> {
    if ids == [] then []
    else Values(scores, ids[..|ids| - 1]) + if ids[|ids| - 1] in scores then [scores[ids[|ids| - 1]]] else []
  }

  function Sum(values: seq<real>): real {
    if values == [] then 0.0 else Sum(values[..|values| - 1]) + values[|values| - 1]
  }

  /** `_mean`. */
  function Mean(scores: map<ExampleId, real>, ids: seq<ExampleId>): real {
    var values := Values(scores, ids);
    if values == [] then 0.0 else Sum(values) / (|values| as real)
  }

  /** `left` sorts before `right` in `_result`: a higher mean, then a shorter text, then an earlier place. */
  predicate Wins(pool: Pool, i: nat, j: nat, ids: seq<ExampleId>)
    requires i < |pool| && j < |pool|
  {
    var a, b := Mean(pool[i].val, ids), Mean(pool[j].val, ids);
    a > b || (a == b && (|pool[i].text| < |pool[j].text| || (|pool[i].text| == |pool[j].text| && i <= j)))
  }

  /** The index `min` picks in `_result`. */
  function Winner(pool: Pool, ids: seq<ExampleId>): (w: nat)
    requires pool != []
    ensures w < |pool|
    ensures forall j :: 0 <= j < |pool| ==> Wins(pool, w, j, ids)
  {
    if |pool| == 1 then 0
    else
      var shorter := pool[..|pool| - 1];
      var w := Winner(shorter, ids);
      assert forall j :: 0 <= j < |shorter| ==> Wins(shorter, w, j, ids) && shorter[j] == pool[j];
      assert forall j :: 0 <= j < |shorter| ==> Wins(pool, w, j, ids);
      if Wins(pool, w, |pool| - 1, ids) then w else |pool| - 1
  }

  lemma {:induction false} SumAtLeast(left: map<ExampleId, real>, right: map<ExampleId, real>, ids: seq<ExampleId>)
    requires HasAll(left, ids) && HasAll(right, ids)
    requires forall i :: 0 <= i < |ids| ==> left[ids[i]] >= right[ids[i]]
    ensures |Values(left, ids)| == |Values(right, ids)| == |ids|
    ensures Sum(Values(left, ids)) >= Sum(Values(right, ids))
    ensures (exists i :: 0 <= i < |ids| && left[ids[i]] > right[ids[i]])
            ==> Sum(Values(left, ids)) > Sum(Values(right, ids))
    decreases |ids|
  {
    if ids != [] {
      var front := ids[..|ids| - 1];
      SumAtLeast(left, right, front);
      var vl, vr := Values(left, ids), Values(right, ids);
      assert vl[..|vl| - 1] == Values(left, front) && vr[..|vr| - 1] == Values(right, front);
      if exists i :: 0 <= i < |ids| && left[ids[i]] > right[ids[i]] {
        var i :| 0 <= i < |ids| && left[ids[i]] > right[ids[i]];
        assert i < |front| ==> front[i] == ids[i];
      }
    }
  }

  /** A dominating candidate sorts strictly before the one it dominates. */
  lemma DominatorHasBetterMean(a: Candidate, b: Candidate, ids: seq<ExampleId>)
    requires ids != [] && HasAll(a.val, ids) && HasAll(b.val, ids) && Dominates(a, b, ids)
    ensures Mean(a.val, ids) > Mean(b.val, ids) || (Mean(a.val, ids) == Mean(b.val, ids) && |a.text| < |b.text|)
  {
    forall i | 0 <= i < |ids|
      ensures a.val[ids[i]] >= b.val[ids[i]]
    {
      assert ScoreOf(a.val, ids[i]) >= ScoreOf(b.val, ids[i]);
    }
    SumAtLeast(a.val, b.val, ids);
    var n := |ids| as real;
    assert Beats(a, b, ids) ==> exists i :: 0 <= i < |ids| && a.val[ids[i]] > b.val[ids[i]];
    if Ties(a, b, ids) {
      forall i | 0 <= i < |ids|
        ensures b.val[ids[i]] >= a.val[ids[i]]
      {
        assert ScoreOf(a.val, ids[i]) == ScoreOf(b.val, ids[i]);
      }
      SumAtLeast(b.val, a.val, ids);
    }
    DivideLess(Sum(Values(b.val, ids)), Sum(Values(a.val, ids)), n);
  }

  lemma DivideLess(x: real, y: real, n: real)
    requires n > 0.0 && x <= y
    ensures x / n <= y / n && (x < y ==> x / n < y / n)
  {
    assert y / n - x / n == (y - x) / n;
  }

  lemma WinnerIsUndominated(pool: Pool, ids: seq<ExampleId>)
    requires pool != [] && ids != [] && AllScored(pool, ids)
    ensures !DominatedAt(pool, Winner(pool, ids), ids)
  {
    var w := Winner(pool, ids);
    forall j | 0 <= j < |pool| && j != w
      ensures !Dominates(pool[j], pool[w], ids)
    {
      assert Wins(pool, w, j, ids);
      if Dominates(pool[j], pool[w], ids) {
        DominatorHasBetterMean(pool[j], pool[w], ids);
      }
    }
  }

  /** The winner is never dominated, so pruning keeps it, and it still wins. */
  lemma PruningKeepsWinner(pool: Pool, ids: seq<ExampleId>)
    requires pool != [] && ids != [] && AllScored(pool, ids)
    ensures Pruned(pool, ids) != []
    ensures Pruned(pool, ids)[Winner(Pruned(pool, ids), ids)] == pool[Winner(pool, ids)]
  {
    hide DominatedAt;
    hide Mean;
    hide AllScored;
    var w := Winner(pool, ids);
    WinnerIsUndominated(pool, ids);
    SurvivorsKeepPlaces(pool, |pool|, ids, w);
    var places := Places(pool, |pool|, ids);
    var pruned := Pruned(pool, ids);
    var k :| 0 <= k < |places| && places[k] == w;
    var v := Winner(pruned, ids);
    assert Wins(pruned, v, k, ids);
    assert Wins(pool, w, places[v], ids);
  }

  /** Where the survivors stood. */
  function Places(pool: Pool, n: nat, ids: seq<ExampleId>): seq<nat>
    requires n <= |pool|
  {
    if n == 0 then []
    else Places(pool, n - 1, ids) + if DominatedAt(pool, n - 1, ids) then [] else [n - 1]
  }

  lemma {:induction false} SurvivorsKeepPlaces(pool: Pool, n: nat, ids: seq<ExampleId>, w: nat)
    requires n <= |pool| && w < |pool|
    ensures |Places(pool, n, ids)| == |Survivors(pool, n, ids)|
    ensures forall i :: 0 <= i < |Places(pool, n, ids)| ==>
              Places(pool, n, ids)[i] < n && Survivors(pool, n, ids)[i] == pool[Places(pool, n, ids)[i]]
    ensures forall i, j :: 0 <= i < j < |Places(pool, n, ids)| ==> Places(pool, n, ids)[i] < Places(pool, n, ids)[j]
    ensures w < n && !DominatedAt(pool, w, ids) ==> w in Places(pool, n, ids)
  {
    hide DominatedAt;
    if n > 0 {
      SurvivorsKeepPlaces(pool, n - 1, ids, w);
    }
  }

  /** The mean the winner has. */
  function BestMean(pool: Pool, ids: seq<ExampleId>): real
    requires pool != []
  {
    Mean(pool[Winner(pool, ids)].val, ids)
  }

  /** Admitting a candidate and pruning never lowers the best validation mean. */
  lemma AdmittingNeverLowersTheBest(pool: Pool, c: Candidate, ids: seq<ExampleId>)
    requires pool != [] && ids != [] && AllScored(pool + [c], ids)
    ensures var pool' := Pruned(pool + [c], ids);
            && pool' != [] && AllScored(pool', ids)
            && BestMean(pool', ids) >= BestMean(pool, ids) && BestMean(pool', ids) >= Mean(c.val, ids)
  {
    PruningKeepsWinner(pool + [c], ids);
    var w := Winner(pool, ids);
    assert (pool + [c])[w] == pool[w];
    assert Wins(pool + [c], Winner(pool + [c], ids), w, ids);
    assert Wins(pool + [c], Winner(pool + [c], ids), |pool|, ids);
    SurvivorsAre(pool + [c], |pool| + 1, ids);
    var pool' := Pruned(pool + [c], ids);
    forall i | 0 <= i < |pool'|
      ensures HasAll(pool'[i].val, ids)
    {
      assert pool'[i] in pool';
    }
  }

  // ------------------------------------------------------------------ parent

  /** On how many examples a candidate is among the best. */
  function Weight(pool: Pool, i: nat, ids: seq<ExampleId>): nat
    requires i < |pool|
  {
    if ids == [] then 0
    else
      var id := ids[|ids| - 1];
      Weight(pool, i, ids[..|ids| - 1]) + if ScoreOf(pool[i].val, id) == BestOn(pool, id) then 1 else 0
  }

  function Total(weights: seq<nat>): nat {
    if weights == [] then 0 else Total(weights[..|weights| - 1]) + weights[|weights| - 1]
  }

  function Weights(pool: Pool, ids: seq<ExampleId>): seq<nat> {
    seq(|pool|, i requires 0 <= i < |pool| => Weight(pool, i, ids))
  }

  lemma {:induction false} TotalAtLeast(weights: seq<nat>, i: nat)
    requires i < |weights|
    ensures Total(weights) >= weights[i]
    decreases |weights|
  {
    if i < |weights| - 1 {
      TotalAtLeast(weights[..|weights| - 1], i);
    }
  }

  /** Somebody is best on the last example, so the weights never sum to zero. */
  lemma SomebodyHasWeight(pool: Pool, ids: seq<ExampleId>)
    requires pool != [] && ids != []
    ensures Total(Weights(pool, ids)) > 0
  {
    var id := ids[|ids| - 1];
    var i :| 0 <= i < |pool| && ScoreOf(pool[i].val, id) == BestOn(pool, id);
    TotalAtLeast(Weights(pool, ids), i);
  }

  /** The place at which `pick`, counted down weight by weight, falls. */
  function Falls(weights: seq<nat>, pick: nat): (i: nat)
    requires pick < Total(weights)
    ensures i < |weights| && weights[i] > 0
    ensures Total(weights[..i]) <= pick < Total(weights[..i]) + weights[i]
    decreases |weights|
  {
    var n := |weights| - 1;
    assert weights[..n + 1] == weights;
    if pick >= Total(weights[..n]) then n
    else
      var i := Falls(weights[..n], pick);
      assert weights[..n][..i] == weights[..i];
      i
  }

  /** `_choose_parent` for one draw from [0, 1). */
  function Parent(pool: Pool, ids: seq<ExampleId>, draw: real): (i: nat)
    requires pool != [] && ids != [] && 0.0 <= draw < 1.0
    ensures i < |pool| && Weight(pool, i, ids) > 0
  {
    SomebodyHasWeight(pool, ids);
    Falls(Weights(pool, ids), Pick(draw, Total(Weights(pool, ids))))
  }

  function Pick(draw: real, total: nat): (pick: nat)
    requires 0.0 <= draw < 1.0 && total > 0
    ensures pick < total
  {
    assert draw * total as real < total as real;
    (draw * total as real).Floor
  }

  lemma {:induction false} TotalOfPrefix(weights: seq<nat>, i: nat)
    requires i < |weights|
    ensures Total(weights[..i + 1]) == Total(weights[..i]) + weights[i]
  {
    assert weights[..i + 1][..i] == weights[..i];
  }

  /** Prefix sums never fall, so the place a pick falls at is unique. */
  lemma {:induction false} PrefixesRise(weights: seq<nat>, i: nat, j: nat)
    requires i <= j <= |weights|
    ensures Total(weights[..i]) <= Total(weights[..j])
    decreases j - i
  {
    if i < j {
      PrefixesRise(weights, i, j - 1);
      TotalOfPrefix(weights, j - 1);
    }
  }

  /** The loop of `_choose_parent`: count `pick` down until it falls within a weight. */
  method CountDown(weights: seq<nat>, draw: nat) returns (index: nat)
    requires draw < Total(weights)
    ensures index == Falls(weights, draw)
  {
    ghost var target := Falls(weights, draw);
    var pick := draw;
    index := 0;
    while pick >= weights[index]
      invariant 0 <= index <= target
      invariant pick == draw - Total(weights[..index])
      decreases |weights| - index
    {
      TotalOfPrefix(weights, index);
      pick := pick - weights[index];
      index := index + 1;
    }
    if index < target {
      TotalOfPrefix(weights, index);
      PrefixesRise(weights, index + 1, target);
    }
  }

  method ChooseParent(pool: Pool, ids: seq<ExampleId>, draw: real) returns (index: nat)
    requires pool != [] && ids != [] && 0.0 <= draw < 1.0
    ensures index == Parent(pool, ids, draw)
  {
    hide Weights;
    var weights := Weights(pool, ids);
    SomebodyHasWeight(pool, ids);
    index := CountDown(weights, Pick(draw, Total(weights)));
  }

  // ------------------------------------------- what the definitions come to

  /** A mean is the sum of the scores there are over how many there are. */
  lemma MeanByOne(scores: map<ExampleId, real>, ids: seq<ExampleId>, id: ExampleId)
    requires HasAll(scores, ids) && id in scores
    ensures Mean(scores, ids + [id]) * (|ids| + 1) as real == Mean(scores, ids) * |ids| as real + scores[id]
    ensures Mean(scores, []) == 0.0
  {
    assert (ids + [id])[..|ids|] == ids;
    AllValues(scores, ids);
    var values := Values(scores, ids);
    assert Values(scores, ids + [id]) == values + [scores[id]];
    assert (values + [scores[id]])[..|values|] == values;
    if ids != [] {
      Undone(Sum(values), |ids|);
    }
    Undone(Sum(values) + scores[id], |ids| + 1);
  }

  lemma Undone(x: real, n: nat)
    requires n > 0
    ensures x / n as real * n as real == x
  {
  }

  lemma {:induction false} AllValues(scores: map<ExampleId, real>, ids: seq<ExampleId>)
    requires HasAll(scores, ids)
    ensures |Values(scores, ids)| == |ids|
    decreases |ids|
  {
    if ids != [] {
      AllValues(scores, ids[..|ids| - 1]);
    }
  }

  /** The examples on which nobody scores more than this candidate. */
  function BestPlaces(pool: Pool, i: nat, ids: seq<ExampleId>): set<nat>
    requires i < |pool|
  {
    set k: nat |
      k < |ids| && forall j :: 0 <= j < |pool| ==> ScoreOf(pool[j].val, ids[k]) <= ScoreOf(pool[i].val, ids[k])
  }

  lemma BestByOne(pool: Pool, i: nat, ids: seq<ExampleId>, id: ExampleId)
    requires i < |pool|
    ensures BestPlaces(pool, i, ids + [id])
            == BestPlaces(pool, i, ids) + if ScoreOf(pool[i].val, id) == BestOn(pool, id) then {|ids|} else {}
  {
    hide ScoreOf;
    var all := ids + [id];
    assert forall k: nat :: k < |ids| ==> all[k] == ids[k];
    assert all[|ids|] == id;
  }

  lemma {:induction false} WeightCounts(pool: Pool, i: nat, ids: seq<ExampleId>)
    requires i < |pool|
    ensures Weight(pool, i, ids) == |BestPlaces(pool, i, ids)|
    decreases |ids|
  {
    if ids == [] {
      assert BestPlaces(pool, i, ids) == {};
    } else {
      var n := |ids| - 1;
      assert ids == ids[..n] + [ids[n]];
      WeightCounts(pool, i, ids[..n]);
      BestByOne(pool, i, ids[..n], ids[n]);
      assert n !in BestPlaces(pool, i, ids[..n]);
    }
  }

  lemma FallsExactly(weights: seq<nat>, pick: nat, i: nat)
    requires pick < Total(weights) && i < |weights|
    ensures Falls(weights, pick) == i <==> Total(weights[..i]) <= pick < Total(weights[..i + 1])
  {
    var chosen := Falls(weights, pick);
    TotalOfPrefix(weights, chosen);
    TotalOfPrefix(weights, i);
    if i < chosen {
      PrefixesRise(weights, i + 1, chosen);
    } else if chosen < i {
      PrefixesRise(weights, chosen + 1, i);
    }
  }

  lemma FloorBetween(x: real, low: nat, high: nat)
    ensures low <= x.Floor < high <==> low as real <= x < high as real
  {
  }

  /** A candidate is drawn exactly when the draw falls in its share of all the weights. */
  lemma ParentHasItsShare(pool: Pool, ids: seq<ExampleId>, draw: real, i: nat)
    requires pool != [] && ids != [] && 0.0 <= draw < 1.0 && i < |pool|
    ensures var weights := Weights(pool, ids);
            Parent(pool, ids, draw) == i
            <==> Total(weights[..i]) as real <= draw * Total(weights) as real < Total(weights[..i + 1]) as real
  {
    hide Weight;
    hide Total;
    hide Falls;
    var weights := Weights(pool, ids);
    SomebodyHasWeight(pool, ids);
    FallsExactly(weights, Pick(draw, Total(weights)), i);
    FloorBetween(draw * Total(weights) as real, Total(weights[..i]), Total(weights[..i + 1]));
  }

  /**
    A candidate is dropped exactly when another is nowhere worse on the validation examples, and somewhere better or
    shorter.
   */
  lemma DroppedExactly(pool: Pool, ids: seq<ExampleId>, i: nat)
    requires i < |pool|
    ensures DominatedAt(pool, i, ids) <==>
              exists j :: 0 <= j < |pool| && j != i && NowhereWorse(pool[j].val, pool[i].val, ids)
                          && (!NowhereWorse(pool[i].val, pool[j].val, ids) || |pool[j].text| < |pool[i].text|)
  {
    forall j | 0 <= j < |pool| && j != i
      ensures Dominates(pool[j], pool[i], ids) <==>
                NowhereWorse(pool[j].val, pool[i].val, ids)
                && (!NowhereWorse(pool[i].val, pool[j].val, ids) || |pool[j].text| < |pool[i].text|)
    {
    }
  }

  predicate NowhereWorse(a: map<ExampleId, real>, b: map<ExampleId, real>, ids: seq<ExampleId>) {
    forall k :: 0 <= k < |ids| ==> ScoreOf(a, ids[k]) >= ScoreOf(b, ids[k])
  }

  /** What pruning keeps: the candidates nobody beats, in their order. */
  lemma PrunedExactly(pool: Pool, ids: seq<ExampleId>)
    ensures var places := Places(pool, |pool|, ids);
            && |Pruned(pool, ids)| == |places|
            && (forall k :: 0 <= k < |places| ==> places[k] < |pool| && Pruned(pool, ids)[k] == pool[places[k]])
            && (forall k, l :: 0 <= k < l < |places| ==> places[k] < places[l])
            && (forall i :: 0 <= i < |pool| ==> (i in places <==> !DominatedAt(pool, i, ids)))
  {
    if pool != [] {
      SurvivorsKeepPlaces(pool, |pool|, ids, 0);
    }
    forall i | 0 <= i < |pool|
      ensures i in Places(pool, |pool|, ids) <==> !DominatedAt(pool, i, ids)
    {
      PlacesAre(pool, |pool|, ids, i);
    }
  }

  lemma {:induction false} PlacesAre(pool: Pool, n: nat, ids: seq<ExampleId>, i: nat)
    requires n <= |pool| && i < |pool|
    ensures i in Places(pool, n, ids) <==> i < n && !DominatedAt(pool, i, ids)
  {
    hide DominatedAt;
    if n > 0 {
      PlacesAre(pool, n - 1, ids, i);
    }
  }
}
