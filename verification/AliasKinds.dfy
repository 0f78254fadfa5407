/**
  The bounded classification of callable aliases in one lexical scope (kigumi/enforce.py): every
  round classifies all bindings under the kinds of the round before, for one round more than there
  are names.
 */
module AliasKinds {
  import opened Sets

  datatype Kind = Unknown | Model | HigherOrder | Opaque | Safe

  /**
    The shapes `classify` tells apart.  `Choice` is a subscript or a call with the callables its
    static container holds, and `Lookup` one into the builtins, whose kind does not depend on names.
   */
  datatype Expr =
    | Name(id: string)
    | Attribute(base: Expr, attr: string)
    | Starred(value: Expr)
    | Walrus(targets: set<string>, value: Expr)
    | Choice(candidates: seq<Expr>)
    | Lookup(kind: Kind)
    | Other

  /** What the scope inherits or imports; none of it is a name bound here. */
  datatype Env = Env(
    model: set<string>,
    higherOrder: set<string>,
    opaqueNames: set<string>,
    safe: set<string>,
    builtinModules: set<string>,
    contexts: set<string>,
    safeBuiltins: set<string>)

  type Bindings = map<string, seq<Expr>>
  type Kinds = map<string, Kind>

  predicate Is(kinds: Kinds, id: string, kind: Kind) {
    id in kinds && kinds[id] == kind
  }

  function Classify(env: Env, kinds: Kinds, e: Expr): Kind
    decreases e
  {
    match e
    case Walrus(targets, value) =>
      var kind := Classify(env, kinds, value);
      if kind.Unknown? && exists t :: t in targets && (t in env.opaqueNames || Is(kinds, t, Opaque))
      then Opaque else kind
    case Starred(value) => Classify(env, kinds, value)
    case Attribute(base, attr) =>
      if attr == "call" || attr == "llm" then
        if base.Name? && base.id in env.contexts then Model else Unknown
      else if (attr == "map" || attr == "filter") && base.Name? && base.id in env.builtinModules then HigherOrder
      else Unknown
    case Choice(candidates) =>
      if candidates == [] then Opaque
      else Joined(seq(|candidates|, i requires 0 <= i < |candidates| => Classify(env, kinds, candidates[i])))
    case Lookup(kind) => kind
    case Name(id) =>
      if id in env.model || Is(kinds, id, Model) then Model
      else if id in env.higherOrder || Is(kinds, id, HigherOrder) then HigherOrder
      else if id in env.opaqueNames || Is(kinds, id, Opaque) then Opaque
      else if id in env.safe || Is(kinds, id, Safe) || id in env.safeBuiltins then Safe
      else if id == "map" || id == "filter" then HigherOrder
      else Unknown
    case Other => Unknown
  }

  /** `_join_loop_callable_kinds`. */
  function Joined(kinds: seq<Kind>): Kind {
    if forall i :: 0 <= i < |kinds| ==> kinds[i].Unknown? then Unknown
    else if exists i :: 0 <= i < |kinds| && kinds[i].Unknown? then Opaque
    else if forall i :: 0 <= i < |kinds| ==> kinds[i] == kinds[0] then kinds[0]
    else Opaque
  }

  function JoinedKind(env: Env, kinds: Kinds, exprs: seq<Expr>): Kind {
    Joined(seq(|exprs|, i requires 0 <= i < |exprs| => Classify(env, kinds, exprs[i])))
  }

  /** One round: all names at once, under the kinds of the round before. */
  function Round(env: Env, bindings: Bindings, kinds: Kinds): Kinds {
    map n | n in bindings :: JoinedKind(env, kinds, bindings[n])
  }

  function After(env: Env, bindings: Bindings, rounds: nat): Kinds {
    if rounds == 0 then map n | n in bindings :: Unknown
    else Round(env, bindings, After(env, bindings, rounds - 1))
  }

  /** The rounds of `_build_loop_scope`, stopping early when nothing changed. */
  method ClassifyAll(env: Env, bindings: Bindings) returns (kinds: Kinds)
    ensures kinds == After(env, bindings, |bindings| + 1)
  {
    kinds := map n | n in bindings :: Unknown;
    for round := 0 to |bindings| + 1
      invariant kinds == After(env, bindings, round)
    {
      var next := Round(env, bindings, kinds);
      if next == kinds {
        StaysStable(env, bindings, round, |bindings| + 1);
        return;
      }
      kinds := next;
    }
  }

  lemma {:induction false} StaysStable(env: Env, bindings: Bindings, round: nat, later: nat)
    requires round <= later && After(env, bindings, round + 1) == After(env, bindings, round)
    ensures After(env, bindings, later) == After(env, bindings, round)
    decreases later
  {
    hide Round;
    if later > round {
      StaysStable(env, bindings, round, later - 1);
    }
  }

  // ------------------------------------------------------------ reachability

  /** The expression comes down to `ctx.call` or `ctx.llm` through names that do so within `depth` steps. */
  predicate ExprReaches(env: Env, bindings: Bindings, e: Expr, depth: nat)
    decreases depth, 1, e
  {
    match e
    case Walrus(_, value) => ExprReaches(env, bindings, value, depth)
    case Starred(value) => ExprReaches(env, bindings, value, depth)
    case Attribute(base, attr) => (attr == "call" || attr == "llm") && base.Name? && base.id in env.contexts
    case Choice(candidates) =>
      candidates != [] && forall i :: 0 <= i < |candidates| ==> ExprReaches(env, bindings, candidates[i], depth)
    case Lookup(kind) => kind.Model?
    case Name(id) => id in env.model || (depth > 0 && NameReaches(env, bindings, id, depth - 1))
    case Other => false
  }

  /** All bindings of the name reach a model call within `depth` steps: the aliases form no cycle. */
  predicate NameReaches(env: Env, bindings: Bindings, id: string, depth: nat)
    decreases depth, 2
  {
    && id in bindings && bindings[id] != []
    && forall i :: 0 <= i < |bindings[id]| ==> ExprReaches(env, bindings, bindings[id][i], depth)
  }

  lemma JoinedIsModel(kinds: seq<Kind>)
    ensures Joined(kinds).Model? <==> kinds != [] && forall i :: 0 <= i < |kinds| ==> kinds[i].Model?
  {
    assert kinds != [] ==> kinds[0].Unknown? || !kinds[0].Unknown?;
  }

  /**
    If the model names are those within `depth` steps, the expressions classified as model are those within one more.
   */
  lemma {:induction false} ClassifiedAsModel(env: Env, bindings: Bindings, kinds: Kinds, e: Expr, depth: nat)
    requires forall id :: Is(kinds, id, Model) <==> depth > 0 && NameReaches(env, bindings, id, depth - 1)
    ensures Classify(env, kinds, e).Model? <==> ExprReaches(env, bindings, e, depth)
    decreases e
  {
    match e
    case Walrus(_, value) => ClassifiedAsModel(env, bindings, kinds, value, depth);
    case Starred(value) => ClassifiedAsModel(env, bindings, kinds, value, depth);
    case Choice(candidates) =>
      var each := seq(|candidates|, i requires 0 <= i < |candidates| => Classify(env, kinds, candidates[i]));
      forall i | 0 <= i < |candidates|
        ensures each[i].Model? <==> ExprReaches(env, bindings, candidates[i], depth)
      {
        ClassifiedAsModel(env, bindings, kinds, candidates[i], depth);
      }
      JoinedIsModel(each);
    case Name(id) => assert Is(kinds, id, Model) <==> depth > 0 && NameReaches(env, bindings, id, depth - 1);
    case _ =>
  }

  /** After `rounds` rounds exactly the names that reach a model call in fewer steps are model. */
  lemma {:induction false} ModelAfter(env: Env, bindings: Bindings, rounds: nat, id: string)
    ensures Is(After(env, bindings, rounds), id, Model) <==> rounds > 0 && NameReaches(env, bindings, id, rounds - 1)
    decreases rounds
  {
    if rounds > 0 && id in bindings {
      var kinds := After(env, bindings, rounds - 1);
      forall other: string
        ensures Is(kinds, other, Model) <==> rounds - 1 > 0 && NameReaches(env, bindings, other, rounds - 2)
      {
        ModelAfter(env, bindings, rounds - 1, other);
      }
      var exprs := bindings[id];
      var each := seq(|exprs|, i requires 0 <= i < |exprs| => Classify(env, kinds, exprs[i]));
      forall i | 0 <= i < |exprs|
        ensures each[i].Model? <==> ExprReaches(env, bindings, exprs[i], rounds - 1)
      {
        ClassifiedAsModel(env, bindings, kinds, exprs[i], rounds - 1);
      }
      JoinedIsModel(each);
    }
  }

  // ------------------------------------------------------- how far is enough

  ghost function Reached(env: Env, bindings: Bindings, depth: nat): set<string> {
    set id | id in bindings && NameReaches(env, bindings, id, depth)
  }

  /** Reached in fewer steps. */
  predicate Sooner(env: Env, bindings: Bindings, id: string, depth: nat) {
    depth > 0 && NameReaches(env, bindings, id, depth - 1)
  }

  /** Reaching depends only on which names were reached one step before. */
  lemma {:induction false} ExprReachesFrom(env: Env, bindings: Bindings, e: Expr, a: nat, b: nat)
    requires forall id :: Sooner(env, bindings, id, a) ==> Sooner(env, bindings, id, b)
    ensures ExprReaches(env, bindings, e, a) ==> ExprReaches(env, bindings, e, b)
    decreases e
  {
    match e
    case Walrus(_, value) => ExprReachesFrom(env, bindings, value, a, b);
    case Starred(value) => ExprReachesFrom(env, bindings, value, a, b);
    case Choice(candidates) =>
      forall i | 0 <= i < |candidates|
        ensures ExprReaches(env, bindings, candidates[i], a) ==> ExprReaches(env, bindings, candidates[i], b)
      {
        ExprReachesFrom(env, bindings, candidates[i], a, b);
      }
    case Name(id) => assert Sooner(env, bindings, id, a) ==> Sooner(env, bindings, id, b);
    case _ =>
  }

  lemma NamesFollow(env: Env, bindings: Bindings, a: nat, b: nat)
    requires forall id :: Sooner(env, bindings, id, a) ==> Sooner(env, bindings, id, b)
    ensures forall id :: NameReaches(env, bindings, id, a) ==> NameReaches(env, bindings, id, b)
  {
    forall id | NameReaches(env, bindings, id, a)
      ensures NameReaches(env, bindings, id, b)
    {
      forall i | 0 <= i < |bindings[id]|
        ensures ExprReaches(env, bindings, bindings[id][i], b)
      {
        ExprReachesFrom(env, bindings, bindings[id][i], a, b);
      }
    }
  }

  /** More steps reach no less. */
  lemma {:induction false} MoreSteps(env: Env, bindings: Bindings, depth: nat)
    ensures forall id :: NameReaches(env, bindings, id, depth) ==> NameReaches(env, bindings, id, depth + 1)
  {
    if depth > 0 {
      MoreSteps(env, bindings, depth - 1);
    }
    NamesFollow(env, bindings, depth, depth + 1);
  }

  /** Once a step reaches nothing new, no later step does. */
  lemma {:induction false} NothingNewLater(env: Env, bindings: Bindings, depth: nat, later: nat)
    requires depth <= later
    requires forall id :: NameReaches(env, bindings, id, depth + 1) ==> NameReaches(env, bindings, id, depth)
    ensures forall id :: NameReaches(env, bindings, id, later) ==> NameReaches(env, bindings, id, depth)
    decreases later
  {
    hide NameReaches;
    if later > depth {
      NothingNewLater(env, bindings, depth, later - 1);
      NamesFollow(env, bindings, later, depth + 1);
    }
  }

  /** Each step either reaches a new name or is the last that matters. */
  lemma {:induction false} StepsCount(env: Env, bindings: Bindings, depth: nat) returns (stable: nat)
    ensures stable <= depth
    ensures |Reached(env, bindings, depth)| > depth
            || forall id :: NameReaches(env, bindings, id, stable + 1) ==> NameReaches(env, bindings, id, stable)
  {
    if depth == 0 {
      stable := 0;
      if Reached(env, bindings, 0) == {} {
        assert forall id :: NameReaches(env, bindings, id, 0) ==> id in Reached(env, bindings, 0);
        NamesFollow(env, bindings, 1, 0);
      } else {
        var id :| id in Reached(env, bindings, 0);
        assert {id} <= Reached(env, bindings, 0);
        SubsetSize({id}, Reached(env, bindings, 0));
      }
    } else {
      stable := StepsCount(env, bindings, depth - 1);
      if !(forall id :: NameReaches(env, bindings, id, stable + 1) ==> NameReaches(env, bindings, id, stable)) {
        var before, after := Reached(env, bindings, depth - 1), Reached(env, bindings, depth);
        MoreSteps(env, bindings, depth - 1);
        assert before <= after;
        if before == after {
          stable := depth - 1;
          assert forall id :: NameReaches(env, bindings, id, depth) ==> id in after;
        } else {
          var id :| id in after && id !in before;
          SubsetSize(before + {id}, after);
        }
      }
    }
  }

  /** A name that reaches a model call at all does so in fewer steps than there are names. */
  lemma FewStepsAreEnough(env: Env, bindings: Bindings, id: string, depth: nat)
    requires NameReaches(env, bindings, id, depth)
    ensures NameReaches(env, bindings, id, |bindings|)
  {
    var stable := StepsCount(env, bindings, |bindings|);
    SubsetSize(Reached(env, bindings, |bindings|), bindings.Keys);
    assert |bindings.Keys| == |bindings|;
    if depth > stable {
      NothingNewLater(env, bindings, stable, depth);
    } else {
      StepsRise(env, bindings, id, depth, stable);
    }
    StepsRise(env, bindings, id, stable, |bindings|);
  }

  lemma {:induction false} StepsRise(env: Env, bindings: Bindings, id: string, few: nat, many: nat)
    requires few <= many && NameReaches(env, bindings, id, few)
    ensures NameReaches(env, bindings, id, many)
    decreases many
  {
    if few < many {
      StepsRise(env, bindings, id, few, many - 1);
      MoreSteps(env, bindings, many - 1);
    }
  }

  /** Names left unknown end up opaque: an alias is proven or needs a waiver. */
  function Final(env: Env, bindings: Bindings): Kinds {
    var kinds := After(env, bindings, |bindings| + 1);
    map n | n in kinds :: if kinds[n].Unknown? then Opaque else kinds[n]
  }

  /**
    The bounded rounds find a name to be model exactly when all its bindings come down to a model
    call through aliases without a cycle, whatever the order of the bindings and whatever kinds the
    names pass through on the way.
   */
  lemma BoundedRoundsFindTheModelNames(env: Env, bindings: Bindings, id: string)
    ensures Is(Final(env, bindings), id, Model) <==> exists depth: nat :: NameReaches(env, bindings, id, depth)
  {
    hide NameReaches;
    ModelAfter(env, bindings, |bindings| + 1, id);
    if exists depth: nat :: NameReaches(env, bindings, id, depth) {
      var depth: nat :| NameReaches(env, bindings, id, depth);
      FewStepsAreEnough(env, bindings, id, depth);
    }
  }

  predicate Definite(kind: Kind) {
    kind.Model? || kind.HigherOrder? || kind.Safe?
  }

  /** A join keeps a definite kind only when all agree on it; kinds that differ, or are partly unknown, are opaque. */
  lemma JoinedExactly(kinds: seq<Kind>)
    ensures Joined(kinds).Unknown? <==> forall i :: 0 <= i < |kinds| ==> kinds[i].Unknown?
    ensures forall kind: Kind :: Definite(kind) ==>
              (Joined(kinds) == kind <==> kinds != [] && forall i :: 0 <= i < |kinds| ==> kinds[i] == kind)
    ensures Joined(kinds).Opaque? <==>
              (exists i :: 0 < i < |kinds| && kinds[i] != kinds[0]) || (kinds != [] && kinds[0].Opaque?)
  {
    if kinds == [] {
      assert Joined(kinds).Unknown?;
    } else if i: nat :| 0 < i < |kinds| && kinds[i] != kinds[0] {
      assert !(kinds[i].Unknown? && kinds[0].Unknown?);
      assert Joined(kinds).Opaque?;
    } else {
      assert forall i :: 0 <= i < |kinds| ==> kinds[i] == kinds[0];
      assert Joined(kinds) == kinds[0];
    }
  }

  /** A name ends with a definite kind exactly when all its bindings have it in the last round; else it is opaque. */
  lemma FinalIsUnanimous(env: Env, bindings: Bindings, id: string, kind: Kind)
    requires id in bindings && Definite(kind)
    ensures var last := After(env, bindings, |bindings|);
            && id in Final(env, bindings) && !Final(env, bindings)[id].Unknown?
            && (Final(env, bindings)[id] == kind <==>
                  bindings[id] != []
                  && forall i :: 0 <= i < |bindings[id]| ==> Classify(env, last, bindings[id][i]) == kind)
  {
    hide Classify;
    hide Joined;
    var last := After(env, bindings, |bindings|);
    var exprs := bindings[id];
    var each := seq(|exprs|, i requires 0 <= i < |exprs| => Classify(env, last, exprs[i]));
    JoinedExactly(each);
    assert forall i :: 0 <= i < |exprs| ==> each[i] == Classify(env, last, exprs[i]);
    assert JoinedKind(env, last, exprs) == Joined(each);
    assert After(env, bindings, |bindings| + 1) == Round(env, bindings, last);
    assert Final(env, bindings)[id] == if Joined(each).Unknown? then Opaque else Joined(each);
  }

  /** `f = ctx.llm` and `g` bound to `f` and to `ctx.call`. */
  function Example(): Bindings {
    map["g" := [Name("f"), Attribute(Name("ctx"), "call")], "f" := [Attribute(Name("ctx"), "llm")]]
  }

  /** Kinds may pass through opaque: `g` is opaque after one round and model after two. */
  lemma OpaqueOnTheWay()
    ensures var env := Env({}, {}, {}, {}, {}, {"ctx"}, {});
            && Is(After(env, Example(), 1), "g", Opaque)
            && Is(After(env, Example(), 2), "g", Model)
  {
    hide ExprReaches;
    var env := Env({}, {}, {}, {}, {}, {"ctx"}, {});
    var start := After(env, Example(), 0);
    var exprs := Example()["g"];
    var kinds := seq(2, i requires 0 <= i < 2 => Classify(env, start, exprs[i]));
    assert kinds[0].Unknown? && kinds[1].Model?;
    assert JoinedKind(env, start, exprs) == Joined(kinds);
    ExampleReaches(env);
    ModelAfter(env, Example(), 2, "g");
  }

  lemma ExampleReaches(env: Env)
    requires "ctx" in env.contexts
    ensures NameReaches(env, Example(), "g", 1)
  {
    assert NameReaches(env, Example(), "f", 0);
  }

  /** The kind of a name: what is known for it, the stronger claim first. */
  lemma NameKinds(env: Env, kinds: Kinds, id: string)
    ensures var kind := Classify(env, kinds, Name(id));
            var model := id in env.model || Is(kinds, id, Model);
            var higher := id in env.higherOrder || Is(kinds, id, HigherOrder);
            var opaqueName := id in env.opaqueNames || Is(kinds, id, Opaque);
            var safe := id in env.safe || id in env.safeBuiltins || Is(kinds, id, Safe);
            && (kind.Model? <==> model)
            && (kind.Opaque? <==> !model && !higher && opaqueName)
            && (kind.Safe? <==> !model && !higher && !opaqueName && safe)
            && (kind.HigherOrder? <==>
                  !model && (higher || (!opaqueName && !safe && (id == "map" || id == "filter"))))
  {
  }

  /** The kinds of the other shapes: methods of a context, the two higher-order builtins, what an inner one is. */
  lemma ShapeKinds(env: Env, kinds: Kinds, id: string, attr: string, targets: set<string>, value: Expr,
                   candidates: seq<Expr>)
    ensures var kind := Classify(env, kinds, Attribute(Name(id), attr));
            && (kind.Model? <==> (attr == "call" || attr == "llm") && id in env.contexts)
            && (kind.HigherOrder? <==> (attr == "map" || attr == "filter") && id in env.builtinModules)
            && !kind.Safe? && !kind.Opaque?
    ensures !value.Name? ==> Classify(env, kinds, Attribute(value, attr)).Unknown?
    ensures Classify(env, kinds, Starred(value)) == Classify(env, kinds, value)
    ensures var inner := Classify(env, kinds, value);
            Classify(env, kinds, Walrus(targets, value))
            == if inner.Unknown? && exists t :: t in targets && (t in env.opaqueNames || Is(kinds, t, Opaque))
               then Opaque else inner
    ensures Classify(env, kinds, Choice([])).Opaque?
    ensures candidates != [] ==>
              Classify(env, kinds, Choice(candidates))
              == Joined(seq(|candidates|, i requires 0 <= i < |candidates| => Classify(env, kinds, candidates[i])))
  {
  }
}
