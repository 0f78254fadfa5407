/**
  What the resolving rules of `BindingExpansion` pick, said by the expressions alone: which element a subscript yields,
  what a dictionary display maps a key to, what an unpacking binds; and what the expansion makes of a literal list.
 */
module BindingMeaning {
  import opened Wrappers
  import opened BindingExpansion

  // --------------------------------------------------------------- subscripts

  /** The expression is a literal with these elements, or a name known for them. */
  predicate KnownSequence(e: Expr, aliases: Aliases, elements: seq<Expr>) {
    || e == Sequence(elements)
    || (e.Name? && e.id in aliases && aliases[e.id] == Elements(elements))
  }

  /** A subscript counts from the front, or below zero from the back, and yields nothing outside. */
  lemma SubscriptOfSequence(e: Expr, aliases: Aliases, elements: seq<Expr>, i: int)
    requires KnownSequence(e, aliases, elements)
    ensures 0 <= i < |elements| ==> ElementOf(Subscript(e, Some(Index(i))), aliases) == Some(elements[i])
    ensures -|elements| <= i < 0 ==>
              ElementOf(Subscript(e, Some(Index(i))), aliases) == Some(elements[|elements| + i])
    ensures i < -|elements| || i >= |elements| ==> ElementOf(Subscript(e, Some(Index(i))), aliases).None?
    ensures ElementOf(Subscript(e, None), aliases).None?
    ensures forall s :: ElementOf(Subscript(e, Some(Text(s))), aliases).None?
    ensures ContainerOf(e, aliases) == Some(Elements(elements))
  {
  }

  /** What entry `p` of a display offers for a key: its value, or what the unpacked mapping has for it. */
  function Offered(keys: seq<DictKey>, values: seq<Expr>, p: nat, key: Key, aliases: Aliases): Option<Expr>
    requires p < |keys| == |values|
  {
    match keys[p]
    case Static(k) => if k == key then Some(values[p]) else None
    case Computed => None
    case Unpack =>
      var inner := MappingOf(values[p], aliases);
      if inner.Some? && key in inner.value then Some(inner.value[key]) else None
  }

  /** An entry whose key cannot be told, or that unpacks something unknown. */
  predicate Opaque(keys: seq<DictKey>, values: seq<Expr>, p: nat, aliases: Aliases)
    requires p < |keys| == |values|
  {
    keys[p].Computed? || (keys[p].Unpack? && MappingOf(values[p], aliases).None?)
  }

  /** The entry at `p` is the last of the first `n` that offers something for the key. */
  predicate LastOffer(keys: seq<DictKey>, values: seq<Expr>, p: nat, n: nat, key: Key, aliases: Aliases)
    requires p < n <= |keys| == |values|
  {
    && Offered(keys, values, p, key, aliases).Some?
    && forall q :: p < q < n ==> Offered(keys, values, q, key, aliases).None?
  }

  lemma {:induction false} EntriesAreKnown(keys: seq<DictKey>, values: seq<Expr>, n: nat, aliases: Aliases)
    requires n <= |keys| == |values|
    ensures EntriesOf(Dict(keys, values), n, aliases).None?
            <==> exists p :: 0 <= p < n && Opaque(keys, values, p, aliases)
    decreases n
  {
    hide MappingOf;
    if n > 0 {
      EntriesAreKnown(keys, values, n - 1, aliases);
      assert Opaque(keys, values, n - 1, aliases) || !Opaque(keys, values, n - 1, aliases);
    }
  }

  lemma {:induction false} EntriesLookUpLast(keys: seq<DictKey>, values: seq<Expr>, n: nat, aliases: Aliases, key: Key)
    requires n <= |keys| == |values|
    requires EntriesOf(Dict(keys, values), n, aliases).Some?
    ensures var m := EntriesOf(Dict(keys, values), n, aliases).value;
            && (key in m <==> exists p :: 0 <= p < n && LastOffer(keys, values, p, n, key, aliases))
            && forall p :: 0 <= p < n && LastOffer(keys, values, p, n, key, aliases) ==>
                 key in m && m[key] == Offered(keys, values, p, key, aliases).value
    decreases n
  {
    hide MappingOf;
    if n > 0 {
      EntriesLookUpLast(keys, values, n - 1, aliases, key);
      var m := EntriesOf(Dict(keys, values), n, aliases).value;
      var before := EntriesOf(Dict(keys, values), n - 1, aliases).value;
      if Offered(keys, values, n - 1, key, aliases).Some? {
        assert LastOffer(keys, values, n - 1, n, key, aliases);
        assert m[key] == Offered(keys, values, n - 1, key, aliases).value;
      } else {
        assert key in m <==> key in before;
        assert key in m ==> m[key] == before[key];
        forall p | 0 <= p < n - 1
          ensures LastOffer(keys, values, p, n, key, aliases) <==> LastOffer(keys, values, p, n - 1, key, aliases)
        {
        }
        assert !LastOffer(keys, values, n - 1, n, key, aliases);
        if key in m {
          var p :| 0 <= p < n - 1 && LastOffer(keys, values, p, n - 1, key, aliases);
          assert LastOffer(keys, values, p, n, key, aliases);
        }
      }
    }
  }

  /**
    A display of known keys maps each key to what the last entry offers for it, unpacked entries included; one entry
    that cannot be told makes it unknown.
   */
  lemma DisplayLooksUpLast(keys: seq<DictKey>, values: seq<Expr>, aliases: Aliases, key: Key, p: nat)
    requires p < |keys| == |values|
    ensures var m := MappingOf(Dict(keys, values), aliases);
            var element := ElementOf(Subscript(Dict(keys, values), Some(key)), aliases);
            && (m.None? <==> exists q :: 0 <= q < |keys| && Opaque(keys, values, q, aliases))
            && (element.Some? <==>
                  m.Some? && exists q :: 0 <= q < |keys| && LastOffer(keys, values, q, |keys|, key, aliases))
            && (m.Some? && LastOffer(keys, values, p, |keys|, key, aliases) ==>
                  element == Offered(keys, values, p, key, aliases))
            && (m.Some? ==> ContainerOf(Dict(keys, values), aliases) == Some(Table(m.value)))
  {
    hide Opaque;
    hide Offered;
    hide EntriesOf;
    EntriesAreKnown(keys, values, |keys|, aliases);
    if MappingOf(Dict(keys, values), aliases).Some? {
      EntriesLookUpLast(keys, values, |keys|, aliases, key);
    }
  }

  /** A name stands for the container it is known for, and nothing else is one. */
  lemma NamesAndOthers(e: Expr, aliases: Aliases)
    ensures e.Name? ==> ContainerOf(e, aliases) == if e.id in aliases then Some(aliases[e.id]) else None
    ensures e.Leaf? || e.Subscript? ==> ContainerOf(e, aliases).None?
    ensures !e.Subscript? ==> ElementOf(e, aliases).None?
  {
  }

  // --------------------------------------------------------------- unpackings

  /** What one target of a tuple binds of the value at its place. */
  function AtPlace(target: Target, value: Expr): seq<Binding> {
    if target.ToTuple? && value.Sequence? then Pairs(target, value.elements) else Pairs(target, [value])
  }

  lemma {:induction false} TuplePairs(targets: seq<Target>, values: seq<Expr>, n: nat, b: Binding)
    requires n <= |targets| && n <= |values|
    ensures b in PairsOf(ToTuple(targets), values, n) <==> exists k :: 0 <= k < n && b in AtPlace(targets[k], values[k])
    decreases n
  {
    hide Pairs;
    if n > 0 {
      TuplePairs(targets, values, n - 1, b);
      if b in PairsOf(ToTuple(targets), values, n - 1) {
        var k :| 0 <= k < n - 1 && b in AtPlace(targets[k], values[k]);
      }
    }
  }

  /**
    An unpacking binds place by place, as far as both sides go; a plain name takes one value; a star takes what is at
    its place.
   */
  lemma UnpackingBinds(target: Target, values: seq<Expr>, b: Binding)
    ensures target.ToName? ==> (b in Pairs(target, values) <==> |values| == 1 && b == (target.id, values[0]))
    ensures target.ToStarred? ==> (b in Pairs(target, values) <==> b in Pairs(target.target, values))
    ensures target.ToTuple? ==>
              (b in Pairs(target, values) <==>
                 exists k :: 0 <= k < |target.targets| && k < |values| && b in AtPlace(target.targets[k], values[k]))
    ensures target.ToOther? ==> b !in Pairs(target, values)
  {
    if target.ToTuple? {
      var n := if |target.targets| < |values| then |target.targets| else |values|;
      TuplePairs(target.targets, values, n, b);
    }
  }

  /** `x, y, ... = [...]`: each name is bound to the element at its own place. */
  lemma FlatUnpacking(names: seq<string>, values: seq<Expr>, b: Binding)
    ensures b in Pairs(ToTuple(seq(|names|, k requires 0 <= k < |names| => ToName(names[k]))), values)
            <==> exists k :: 0 <= k < |names| && k < |values| && b == (names[k], values[k])
  {
    var targets := seq(|names|, k requires 0 <= k < |names| => ToName(names[k]));
    UnpackingBinds(ToTuple(targets), values, b);
    forall k | 0 <= k < |names| && k < |values|
      ensures b in AtPlace(targets[k], values[k]) <==> b == (names[k], values[k])
    {
    }
  }

  /** An iteration binds its target to every element, one after another. */
  lemma {:induction false} IterationBinds(target: Target, values: seq<Expr>, b: Binding)
    ensures b in IterationPairs(target, values) <==> exists k :: 0 <= k < |values| && b in Pairs(target, [values[k]])
    decreases |values|
  {
    hide Pairs;
    if values != [] {
      IterationBinds(target, values[1..], b);
      NameTakesOne(target, values[0]);
      if b in IterationPairs(target, values[1..]) {
        var k :| 0 <= k < |values[1..]| && b in Pairs(target, [values[1..][k]]);
        assert values[k + 1] == values[1..][k];
      }
      assert forall k :: 1 <= k < |values| ==> values[k] == values[1..][k - 1];
    }
  }

  lemma NameTakesOne(target: Target, value: Expr)
    ensures target.ToName? ==> Pairs(target, [value]) == [(target.id, value)]
  {
  }

  // ------------------------------------------------- a subscript of a list

  /** `h = [...]`, `x = h[i]`. */
  function ListAndSubscript(h: string, elements: seq<Expr>, x: string, i: int): Facts {
    Facts([(h, Sequence(elements)), (x, Subscript(Name(h), Some(Index(i))))], [], [], map[])
  }

  /** The element that subscript is about. */
  predicate Subscripted(elements: seq<Expr>, i: int, e: Expr) {
    (0 <= i < |elements| && e == elements[i]) || (-|elements| <= i < 0 && e == elements[|elements| + i])
  }

  predicate OnlyThose(h: string, elements: seq<Expr>, x: string, i: int, assignments: seq<Binding>, aliases: Aliases) {
    && (forall b :: b in assignments ==>
          || b in ListAndSubscript(h, elements, x, i).assignments
          || (b.0 == x && Subscripted(elements, i, b.1)))
    && (forall n :: n in aliases ==> n == h && aliases[n] == Elements(elements))
  }

  lemma StepStaysOnlyThose(h: string, elements: seq<Expr>, x: string, i: int, assignments: seq<Binding>,
                           aliases: Aliases, fact: Fact)
    requires h != x && (forall k :: 0 <= k < |elements| ==> elements[k].Leaf?)
    requires OnlyThose(h, elements, x, i, assignments, aliases)
    requires Follows(ListAndSubscript(h, elements, x, i), assignments, aliases, fact)
    ensures var (assignments', aliases') := Noted(assignments, aliases, fact);
            OnlyThose(h, elements, x, i, assignments', aliases')
  {
    match fact
    case Bound(b) =>
      var k :| 0 <= k < |assignments| && Selects(assignments[k], aliases, b);
      var a := assignments[k];
      NamesAndOthers(a.1, aliases);
      if h in aliases {
        SubscriptOfSequence(Name(h), aliases, elements, i);
      }
      assert a.1.Subscript? && a == (x, Subscript(Name(h), Some(Index(i))));
      assert h in aliases;
    case Aliased(n, c) =>
      var k :| 0 <= k < |assignments| && assignments[k].0 == n && ContainerOf(assignments[k].1, aliases) == Some(c);
      NamesAndOthers(assignments[k].1, aliases);
  }

  lemma {:induction false} ReplayStaysOnlyThose(h: string, elements: seq<Expr>, x: string, i: int, facts: seq<Fact>)
    requires h != x && (forall k :: 0 <= k < |elements| ==> elements[k].Leaf?)
    requires Derivation(ListAndSubscript(h, elements, x, i), facts)
    ensures var (assignments, aliases) := Replay(ListAndSubscript(h, elements, x, i), facts);
            OnlyThose(h, elements, x, i, assignments, aliases)
    decreases |facts|
  {
    hide Follows;
    hide OnlyThose;
    var f := ListAndSubscript(h, elements, x, i);
    if facts == [] {
      GivenOnly(h, elements, x, i);
    } else {
      var before := facts[..|facts| - 1];
      assert forall k :: 0 <= k < |before| ==> before[..k] == facts[..k] && before[k] == facts[k];
      ReplayStaysOnlyThose(h, elements, x, i, before);
      var (assignments, aliases) := Replay(f, before);
      StepStaysOnlyThose(h, elements, x, i, assignments, aliases, facts[|facts| - 1]);
    }
  }

  lemma GivenOnly(h: string, elements: seq<Expr>, x: string, i: int)
    ensures OnlyThose(h, elements, x, i, ListAndSubscript(h, elements, x, i).assignments, map[])
  {
  }

  /**
    Whatever the passes make of `h = [...]`, `x = h[i]`: when they end, `x` is bound to its subscript and to exactly the
    element that subscript is about, and `h` is known as exactly that list.
   */
  lemma SubscriptBindsExactly(h: string, elements: seq<Expr>, x: string, i: int, assignments: seq<Binding>,
                              aliases: Aliases, b: Binding)
    requires h != x && (forall k :: 0 <= k < |elements| ==> elements[k].Leaf?)
    requires var f := ListAndSubscript(h, elements, x, i);
             f.assignments <= assignments && Saturated(f, assignments, aliases) && Derived(f, assignments, aliases)
    ensures b in assignments <==>
              || b == (h, Sequence(elements)) || b == (x, Subscript(Name(h), Some(Index(i))))
              || (0 <= i < |elements| && b == (x, elements[i]))
              || (-|elements| <= i < 0 && b == (x, elements[|elements| + i]))
    ensures aliases == map[h := Elements(elements)]
  {
    hide ContainerOf;
    hide ElementOf;
    var f := ListAndSubscript(h, elements, x, i);
    var facts :| Derivation(f, facts) && Replay(f, facts) == (assignments, aliases);
    ReplayStaysOnlyThose(h, elements, x, i, facts);
    SubscriptOfSequence(Sequence(elements), aliases, elements, i);
    assert assignments[0] == f.assignments[0] && assignments[1] == f.assignments[1];
    assert Settled(assignments[0], assignments, aliases);
    SubscriptOfSequence(Name(h), aliases, elements, i);
    assert Settled(assignments[1], assignments, aliases);
  }

  /** `h = [len, ctx.llm]`, `f = h[1]`: the guard sees `f` bound to the model call. */
  method SecondOfTwo() returns (assignments: seq<Binding>, aliases: Aliases)
    ensures ("f", Leaf("ctx.llm")) in assignments && ("f", Leaf("len")) !in assignments
  {
    var elements := [Leaf("len"), Leaf("ctx.llm")];
    assignments, aliases := Expand(ListAndSubscript("h", elements, "f", 1));
    hide Saturated;
    hide Derived;
    SubscriptBindsExactly("h", elements, "f", 1, assignments, aliases, ("f", elements[1]));
    SubscriptBindsExactly("h", elements, "f", 1, assignments, aliases, ("f", elements[0]));
  }
}
