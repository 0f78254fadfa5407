/**
  Expanding bindings through statically known containers (kigumi/enforce.py): a subscript of a known
  list or dictionary adds its element as a further binding, until nothing changes.
 */
module BindingExpansion {
  import opened Wrappers
  import opened Sets

  datatype Key = Index(i: int) | Text(s: string)

  /** Dictionary keys as the source tells them apart. */
  datatype DictKey = Static(key: Key) | Unpack | Computed

  datatype Expr =
    | Name(id: string)
    | Leaf(tag: string)
    | Sequence(elements: seq<Expr>)
    | Dict(keys: seq<DictKey>, values: seq<Expr>)
    | Subscript(value: Expr, key: Option<Key>)

  datatype Container = Elements(elements: seq<Expr>) | Table(entries: map<Key, Expr>)

  type Aliases = map<string, Container>

  type Binding = (string, Expr)

  /** Assignment targets of deferred unpackings and iterations. */
  datatype Target = ToName(id: string) | ToStarred(target: Target) | ToTuple(targets: seq<Target>) | ToOther

  // --------------------------------------------------------------- resolving

  function SequenceOf(e: Expr, aliases: Aliases): Option<seq<Expr>> {
    match e
    case Sequence(elements) => Some(elements)
    case Name(id) => if id in aliases && aliases[id].Elements? then Some(aliases[id].elements) else None
    case _ => None
  }

  function MappingOf(e: Expr, aliases: Aliases): Option<map<Key, Expr>>
    decreases e, 1
  {
    match e
    case Dict(keys, values) => if |keys| == |values| then EntriesOf(e, |keys|, aliases) else None
    case Name(id) => if id in aliases && aliases[id].Table? then Some(aliases[id].entries) else None
    case _ => None
  }

  /** The first `n` entries of a dictionary display, later ones winning, unpacked ones resolved first. */
  function EntriesOf(e: Expr, n: nat, aliases: Aliases): Option<map<Key, Expr>>
    requires e.Dict? && |e.keys| == |e.values| && n <= |e.keys|
    decreases e, 0, n
  {
    if n == 0 then Some(map[])
    else
      var before := EntriesOf(e, n - 1, aliases);
      if before.None? then None
      else match e.keys[n - 1]
        case Unpack =>
          var unpacked := MappingOf(e.values[n - 1], aliases);
          if unpacked.None? then None else Some(before.value + unpacked.value)
        case Static(key) => Some(before.value[key := e.values[n - 1]])
        case Computed => None
  }

  function ContainerOf(e: Expr, aliases: Aliases): Option<Container> {
    var elements := SequenceOf(e, aliases);
    if elements.Some? then Some(Elements(elements.value))
    else
      var entries := MappingOf(e, aliases);
      if entries.Some? then Some(Table(entries.value)) else None
  }

  /** The element a subscript selects: of a sequence, counting from the end below zero, or else of a mapping. */
  function ElementOf(e: Expr, aliases: Aliases): Option<Expr> {
    if !e.Subscript? || e.key.None? then None
    else
      var elements := SequenceOf(e.value, aliases);
      var entries := MappingOf(e.value, aliases);
      if elements.Some? && e.key.value.Index? && -|elements.value| <= e.key.value.i < |elements.value| then
        Some(elements.value[if e.key.value.i < 0 then |elements.value| + e.key.value.i else e.key.value.i])
      else if entries.Some? && e.key.value in entries.value then Some(entries.value[e.key.value])
      else None
  }

  /** `_target_value_pairs_from_elements`. */
  function Pairs(target: Target, values: seq<Expr>): seq<Binding>
    decreases target, 1
  {
    match target
    case ToName(id) => if |values| == 1 then [(id, values[0])] else []
    case ToStarred(inner) => Pairs(inner, values)
    case ToTuple(targets) => PairsOf(target, values, if |targets| < |values| then |targets| else |values|)
    case ToOther => []
  }

  function PairsOf(target: Target, values: seq<Expr>, n: nat): seq<Binding>
    requires target.ToTuple? && n <= |target.targets| && n <= |values|
    decreases target, 0, n
  {
    if n == 0 then []
    else
      var t, v := target.targets[n - 1], values[n - 1];
      PairsOf(target, values, n - 1)
      + if t.ToTuple? && v.Sequence? then Pairs(t, v.elements) else Pairs(t, [v])
  }

  /** What one element of an iteration binds. */
  function IterationPairs(target: Target, values: seq<Expr>): seq<Binding> {
    if values == [] then []
    else
      (if target.ToName? then [(target.id, values[0])] else Pairs(target, [values[0]]))
      + IterationPairs(target, values[1..])
  }

  // ------------------------------------------------------ the finite universe

  ghost function Children(e: Expr): set<Expr> {
    match e
    case Sequence(elements) => set i | 0 <= i < |elements| :: elements[i]
    case Dict(_, values) => set i | 0 <= i < |values| :: values[i]
    case Subscript(value, _) => {value}
    case _ => {}
  }

  /** A set of expressions that holds the parts of its members. */
  ghost predicate Closed(universe: set<Expr>) {
    forall e :: e in universe ==> Children(e) <= universe
  }

  ghost predicate Holds(universe: set<Expr>, c: Container) {
    match c
    case Elements(elements) => forall i :: 0 <= i < |elements| ==> elements[i] in universe
    case Table(entries) => forall k :: k in entries ==> entries[k] in universe
  }

  ghost predicate Holding(universe: set<Expr>, aliases: Aliases) {
    forall n :: n in aliases ==> Holds(universe, aliases[n])
  }

  lemma {:induction false} MappingStaysInside(e: Expr, aliases: Aliases, universe: set<Expr>)
    requires Closed(universe) && Holding(universe, aliases) && e in universe
    ensures MappingOf(e, aliases).Some? ==> Holds(universe, Table(MappingOf(e, aliases).value))
    decreases e, 1
  {
    if e.Dict? && |e.keys| == |e.values| {
      EntriesStayInside(e, |e.keys|, aliases, universe);
    }
  }

  lemma {:induction false} EntriesStayInside(e: Expr, n: nat, aliases: Aliases, universe: set<Expr>)
    requires Closed(universe) && Holding(universe, aliases) && e in universe
    requires e.Dict? && |e.keys| == |e.values| && n <= |e.keys|
    ensures EntriesOf(e, n, aliases).Some? ==> Holds(universe, Table(EntriesOf(e, n, aliases).value))
    decreases e, 0, n
  {
    if n > 0 {
      EntriesStayInside(e, n - 1, aliases, universe);
      assert e.values[n - 1] in Children(e);
      MappingStaysInside(e.values[n - 1], aliases, universe);
    }
  }

  /** Resolving never leaves the universe: containers and elements are parts of what is there. */
  lemma ResolvedInside(e: Expr, aliases: Aliases, universe: set<Expr>)
    requires Closed(universe) && Holding(universe, aliases) && e in universe
    ensures ContainerOf(e, aliases).Some? ==> Holds(universe, ContainerOf(e, aliases).value)
    ensures ElementOf(e, aliases).Some? ==> ElementOf(e, aliases).value in universe
  {
    MappingStaysInside(e, aliases, universe);
    assert e.Sequence? ==> forall i :: 0 <= i < |e.elements| ==> e.elements[i] in Children(e);
    if e.Subscript? {
      assert e.value in Children(e);
      MappingStaysInside(e.value, aliases, universe);
      assert e.value.Sequence? ==> forall i :: 0 <= i < |e.value.elements| ==> e.value.elements[i] in Children(e.value);
    }
  }

  ghost function TargetNames(t: Target): set<string> {
    match t
    case ToName(id) => {id}
    case ToStarred(inner) => TargetNames(inner)
    case ToTuple(targets) => set i, n | 0 <= i < |targets| && n in TargetNames(targets[i]) :: n
    case ToOther => {}
  }

  ghost predicate Inside(pairs: seq<Binding>, names: set<string>, universe: set<Expr>) {
    forall i :: 0 <= i < |pairs| ==> pairs[i].0 in names && pairs[i].1 in universe
  }

  lemma {:induction false} PairsInside(t: Target, values: seq<Expr>, names: set<string>, universe: set<Expr>)
    requires Closed(universe) && TargetNames(t) <= names && forall i :: 0 <= i < |values| ==> values[i] in universe
    ensures Inside(Pairs(t, values), names, universe)
    decreases t, 1
  {
    match t
    case ToStarred(inner) => PairsInside(inner, values, names, universe);
    case ToTuple(targets) => PairsOfInside(t, values, if |targets| < |values| then |targets| else |values|, names,
                                           universe);
    case _ =>
  }

  lemma {:induction false} PairsOfInside(t: Target, values: seq<Expr>, n: nat, names: set<string>, universe: set<Expr>)
    requires Closed(universe) && TargetNames(t) <= names && forall i :: 0 <= i < |values| ==> values[i] in universe
    requires t.ToTuple? && n <= |t.targets| && n <= |values|
    ensures Inside(PairsOf(t, values, n), names, universe)
    decreases t, 0, n
  {
    if n > 0 {
      PairsOfInside(t, values, n - 1, names, universe);
      var inner, v := t.targets[n - 1], values[n - 1];
      forall name | name in TargetNames(inner)
        ensures name in names
      {
        assert name in TargetNames(t);
      }
      if inner.ToTuple? && v.Sequence? {
        assert forall i :: 0 <= i < |v.elements| ==> v.elements[i] in Children(v);
        PairsInside(inner, v.elements, names, universe);
      } else {
        PairsInside(inner, [v], names, universe);
      }
    }
  }

  lemma {:induction false} IterationInside(t: Target, values: seq<Expr>, names: set<string>, universe: set<Expr>)
    requires Closed(universe) && TargetNames(t) <= names && forall i :: 0 <= i < |values| ==> values[i] in universe
    ensures Inside(IterationPairs(t, values), names, universe)
    decreases |values|
  {
    if values != [] {
      PairsInside(t, [values[0]], names, universe);
      IterationInside(t, values[1..], names, universe);
    }
  }

  ghost function Parts(e: Expr): set<Expr>
    ensures e in Parts(e)
  {
    match e
    case Sequence(elements) => {e} + set i, x | 0 <= i < |elements| && x in Parts(elements[i]) :: x
    case Dict(_, values) => {e} + set i, x | 0 <= i < |values| && x in Parts(values[i]) :: x
    case Subscript(value, _) => {e} + Parts(value)
    case _ => {e}
  }

  lemma ChildParts(e: Expr, c: Expr)
    requires c in Children(e)
    ensures Parts(c) <= Parts(e)
  {
  }

  lemma {:induction false} PartsAreClosed(e: Expr)
    ensures Closed(Parts(e))
  {
    forall x | x in Parts(e)
      ensures Children(x) <= Parts(e)
    {
      if x == e {
        forall c | c in Children(e)
          ensures c in Parts(e)
        {
          ChildParts(e, c);
        }
      } else {
        var c := Within(e, x);
        ChildParts(e, c);
        PartsAreClosed(c);
      }
    }
  }

  /** A proper part lies within some child. */
  lemma Within(e: Expr, x: Expr) returns (c: Expr)
    requires x in Parts(e) && x != e
    ensures c in Children(e) && x in Parts(c) && c < e
  {
    match e
    case Sequence(elements) =>
      var i :| 0 <= i < |elements| && x in Parts(elements[i]);
      c := elements[i];
    case Dict(_, values) =>
      var i :| 0 <= i < |values| && x in Parts(values[i]);
      c := values[i];
    case Subscript(value, _) => c := value;
  }

  ghost function PartsOfAll(es: set<Expr>): set<Expr> {
    set e, x | e in es && x in Parts(e) :: x
  }

  lemma AllPartsAreClosed(es: set<Expr>)
    ensures Closed(PartsOfAll(es)) && es <= PartsOfAll(es)
  {
    assert forall e :: e in es ==> e in Parts(e);
    forall x | x in PartsOfAll(es)
      ensures Children(x) <= PartsOfAll(es)
    {
      var e :| e in es && x in Parts(e);
      PartsAreClosed(e);
      assert Children(x) <= Parts(e);
    }
  }

  // --------------------------------------------------------------- the facts

  /** What a scope was found to assign, unpack and iterate over, and the containers it inherits. */
  datatype Facts = Facts(
    assignments: seq<Binding>, unpackings: seq<(Target, Expr)>, iterations: seq<(Target, Expr)>, inherited: Aliases)

  ghost function Held(c: Container): set<Expr> {
    match c
    case Elements(elements) => set i | 0 <= i < |elements| :: elements[i]
    case Table(entries) => set k | k in entries :: entries[k]
  }

  /** All expressions that can ever be bound: the parts of what is there. */
  ghost function Universe(f: Facts): set<Expr> {
    PartsOfAll((set i | 0 <= i < |f.assignments| :: f.assignments[i].1)
               + (set i | 0 <= i < |f.unpackings| :: f.unpackings[i].1)
               + (set i | 0 <= i < |f.iterations| :: f.iterations[i].1)
               + (set n, x | n in f.inherited && x in Held(f.inherited[n]) :: x))
  }

  ghost function Names(f: Facts): set<string> {
    (set i | 0 <= i < |f.assignments| :: f.assignments[i].0)
    + (set i, n | 0 <= i < |f.unpackings| && n in TargetNames(f.unpackings[i].0) :: n)
    + (set i, n | 0 <= i < |f.iterations| && n in TargetNames(f.iterations[i].0) :: n)
    + f.inherited.Keys
  }

  ghost function Possible(f: Facts): set<Binding> {
    set n, e | n in Names(f) && e in Universe(f) :: (n, e)
  }

  /** Whatever one binding leads to is there. */
  predicate Settled(b: Binding, assignments: seq<Binding>, aliases: Aliases) {
    && (ElementOf(b.1, aliases).Some? ==> (b.0, ElementOf(b.1, aliases).value) in assignments)
    && (ContainerOf(b.1, aliases).Some? ==> b.0 in aliases)
  }

  predicate SettledUpTo(n: nat, assignments: seq<Binding>, aliases: Aliases)
    requires n <= |assignments|
  {
    forall i :: 0 <= i < n ==> Settled(assignments[i], assignments, aliases)
  }

  lemma NoneYet(assignments: seq<Binding>, aliases: Aliases)
    ensures SettledUpTo(0, assignments, aliases)
  {
  }

  lemma OneMoreSettled(n: nat, assignments: seq<Binding>, aliases: Aliases)
    requires n < |assignments|
    ensures SettledUpTo(n, assignments, aliases) && Settled(assignments[n], assignments, aliases) ==>
              SettledUpTo(n + 1, assignments, aliases)
  {
  }

  predicate AllBound(pairs: seq<Binding>, assignments: seq<Binding>) {
    forall i :: 0 <= i < |pairs| ==> pairs[i] in assignments
  }

  predicate Unpacked(u: (Target, Expr), assignments: seq<Binding>, aliases: Aliases) {
    SequenceOf(u.1, aliases).Some? ==> AllBound(Pairs(u.0, SequenceOf(u.1, aliases).value), assignments)
  }

  predicate Iterated(u: (Target, Expr), assignments: seq<Binding>, aliases: Aliases) {
    SequenceOf(u.1, aliases).Some? ==> AllBound(IterationPairs(u.0, SequenceOf(u.1, aliases).value), assignments)
  }

  /** Nothing is left to expand. */
  predicate Saturated(f: Facts, assignments: seq<Binding>, aliases: Aliases) {
    && SettledUpTo(|assignments|, assignments, aliases)
    && (forall i :: 0 <= i < |f.unpackings| ==> Unpacked(f.unpackings[i], assignments, aliases))
    && (forall i :: 0 <= i < |f.iterations| ==> Iterated(f.iterations[i], assignments, aliases))
  }

  // -------------------------------------------------------- the derivation

  /** One thing the expansion finds out. */
  datatype Fact = Bound(binding: Binding) | Aliased(name: string, container: Container)

  predicate Selects(a: Binding, aliases: Aliases, b: Binding) {
    a.0 == b.0 && ElementOf(a.1, aliases) == Some(b.1)
  }

  predicate Deferred(f: Facts, aliases: Aliases, b: Binding) {
    || (exists i :: 0 <= i < |f.unpackings| && b in PairsFrom(f.unpackings[i], aliases))
    || (exists i :: 0 <= i < |f.iterations| && b in PairsFromEach(f.iterations[i], aliases))
  }

  function PairsFrom(u: (Target, Expr), aliases: Aliases): seq<Binding> {
    if SequenceOf(u.1, aliases).Some? then Pairs(u.0, SequenceOf(u.1, aliases).value) else []
  }

  function PairsFromEach(u: (Target, Expr), aliases: Aliases): seq<Binding> {
    if SequenceOf(u.1, aliases).Some? then IterationPairs(u.0, SequenceOf(u.1, aliases).value) else []
  }

  /** The rules: an element of a known container, an unpacking or iteration of one, the first container of a name. */
  predicate Follows(f: Facts, assignments: seq<Binding>, aliases: Aliases, fact: Fact) {
    match fact
    case Bound(b) => (exists i :: 0 <= i < |assignments| && Selects(assignments[i], aliases, b))
      || Deferred(f, aliases, b)
    case Aliased(n, c) => n !in aliases && exists i :: 0 <= i < |assignments| && assignments[i].0 == n
                                                      && ContainerOf(assignments[i].1, aliases) == Some(c)
  }

  function Noted(assignments: seq<Binding>, aliases: Aliases, fact: Fact): (seq<Binding>, Aliases) {
    match fact
    case Bound(b) => (assignments + [b], aliases)
    case Aliased(n, c) => (assignments, aliases[n := c])
  }

  /** From what was given, fact after fact. */
  function Replay(f: Facts, facts: seq<Fact>): (seq<Binding>, Aliases) {
    if facts == [] then (f.assignments, f.inherited)
    else
      var (assignments, aliases) := Replay(f, facts[..|facts| - 1]);
      Noted(assignments, aliases, facts[|facts| - 1])
  }

  ghost predicate Derivation(f: Facts, facts: seq<Fact>) {
    forall k :: 0 <= k < |facts| ==>
      var (assignments, aliases) := Replay(f, facts[..k]);
      Follows(f, assignments, aliases, facts[k])
  }

  /** There is a derivation of exactly these bindings and containers, each step by a rule from the ones before. */
  ghost predicate Derived(f: Facts, assignments: seq<Binding>, aliases: Aliases) {
    exists facts :: Derivation(f, facts) && Replay(f, facts) == (assignments, aliases)
  }

  lemma GivenIsDerived(f: Facts)
    ensures Derived(f, f.assignments, f.inherited)
  {
    assert Derivation(f, []) && Replay(f, []) == (f.assignments, f.inherited);
  }

  lemma OneMoreFact(f: Facts, assignments: seq<Binding>, aliases: Aliases, fact: Fact)
    requires Derived(f, assignments, aliases) && Follows(f, assignments, aliases, fact)
    ensures var (assignments', aliases') := Noted(assignments, aliases, fact);
            Derived(f, assignments', aliases')
  {
    hide Follows;
    hide Noted;
    var facts :| Derivation(f, facts) && Replay(f, facts) == (assignments, aliases);
    var more := facts + [fact];
    assert more[..|facts|] == facts;
    assert Replay(f, more) == Noted(assignments, aliases, fact);
    forall k | 0 <= k < |more|
      ensures var (before, known) := Replay(f, more[..k]); Follows(f, before, known, more[k])
    {
      if k < |facts| {
        assert more[..k] == facts[..k] && more[k] == facts[k];
      }
    }
  }

  /** The variables of the loop, inside the finite universe and derived so far. */
  ghost predicate Bounded(f: Facts, assignments: seq<Binding>, seen: set<Binding>, aliases: Aliases) {
    && f.assignments <= assignments
    && (forall b :: b in assignments <==> b in seen)
    && seen <= Possible(f)
    && aliases.Keys <= Names(f) && Holding(Universe(f), aliases)
    && Derived(f, assignments, aliases)
    && forall n :: n in f.inherited ==> n in aliases && aliases[n] == f.inherited[n]
  }

  /** How much can still be added. */
  ghost function Room(f: Facts, seen: set<Binding>, aliases: Aliases): int {
    |Possible(f)| - |seen| + |Names(f)| - |aliases|
  }

  lemma RoomIsLeft(f: Facts, assignments: seq<Binding>, seen: set<Binding>, aliases: Aliases)
    requires Bounded(f, assignments, seen, aliases)
    ensures Room(f, seen, aliases) >= 0 && |seen| <= |Possible(f)| && |aliases| <= |Names(f)|
  {
    SubsetSize(seen, Possible(f));
    SubsetSize(aliases.Keys, Names(f));
    assert |aliases.Keys| == |aliases|;
  }

  lemma UniverseIsClosed(f: Facts)
    ensures Closed(Universe(f))
    ensures forall i :: 0 <= i < |f.assignments| ==> f.assignments[i].1 in Universe(f)
    ensures forall i :: 0 <= i < |f.unpackings| ==> f.unpackings[i].1 in Universe(f)
    ensures forall i :: 0 <= i < |f.iterations| ==> f.iterations[i].1 in Universe(f)
    ensures Holding(Universe(f), f.inherited)
  {
    var all := (set i | 0 <= i < |f.assignments| :: f.assignments[i].1)
               + (set i | 0 <= i < |f.unpackings| :: f.unpackings[i].1)
               + (set i | 0 <= i < |f.iterations| :: f.iterations[i].1)
               + (set n, x | n in f.inherited && x in Held(f.inherited[n]) :: x);
    AllPartsAreClosed(all);
    hide PartsOfAll;
    forall n | n in f.inherited
      ensures Holds(Universe(f), f.inherited[n])
    {
      match f.inherited[n]
      case Elements(elements) =>
        assert forall i :: 0 <= i < |elements| ==> elements[i] in Held(f.inherited[n]);
      case Table(entries) =>
        assert forall k :: k in entries ==> entries[k] in Held(f.inherited[n]);
    }
  }

  // ------------------------------------------------------------ the expansion

  /** `add_assignment`. */
  method AddAssignment(f: Facts, b: Binding, assignments: seq<Binding>, seen: set<Binding>, ghost aliases: Aliases)
    returns (assignments': seq<Binding>, seen': set<Binding>, added: bool)
    requires Bounded(f, assignments, seen, aliases) && b in Possible(f) && Follows(f, assignments, aliases, Bound(b))
    ensures Bounded(f, assignments', seen', aliases) && assignments <= assignments' && b in assignments'
    ensures added == (b !in seen)
    ensures !added ==> assignments' == assignments && seen' == seen
    ensures Room(f, seen', aliases) == Room(f, seen, aliases) - if added then 1 else 0
    ensures |assignments'| == |assignments| + if added then 1 else 0
  {
    hide Follows;
    hide Derived;
    if b in seen {
      return assignments, seen, false;
    }
    OneMoreFact(f, assignments, aliases, Bound(b));
    return assignments + [b], seen + {b}, true;
  }

  method AddAll(f: Facts, pairs: seq<Binding>, assignments: seq<Binding>, seen: set<Binding>, ghost aliases: Aliases)
    returns (assignments': seq<Binding>, seen': set<Binding>, changed: bool)
    requires Bounded(f, assignments, seen, aliases) && Inside(pairs, Names(f), Universe(f))
    requires forall i :: 0 <= i < |pairs| ==> Deferred(f, aliases, pairs[i])
    ensures Bounded(f, assignments', seen', aliases) && assignments <= assignments' && AllBound(pairs, assignments')
    ensures !changed ==> assignments' == assignments && seen' == seen
    ensures Room(f, seen', aliases) + (if changed then 1 else 0) <= Room(f, seen, aliases)
  {
    hide Bounded;
    hide Names;
    hide Universe;
    hide Room;
    hide Deferred;
    assignments', seen', changed := assignments, seen, false;
    for k := 0 to |pairs|
      invariant Bounded(f, assignments', seen', aliases) && assignments <= assignments'
      invariant forall i :: 0 <= i < k ==> pairs[i] in assignments'
      invariant !changed ==> assignments' == assignments && seen' == seen
      invariant Room(f, seen', aliases) + (if changed then 1 else 0) <= Room(f, seen, aliases)
    {
      assert pairs[k].0 in Names(f) && pairs[k].1 in Universe(f) && pairs[k] == (pairs[k].0, pairs[k].1);
      ghost var before := assignments';
      var added;
      assignments', seen', added := AddAssignment(f, pairs[k], assignments', seen', aliases);
      assert forall b :: b in before ==> b in assignments';
      changed := changed || added;
    }
  }

  /** One look at one assignment: its element, then its container. */
  method Look(f: Facts, i: nat, assignments: seq<Binding>, seen: set<Binding>, aliases: Aliases)
    returns (assignments': seq<Binding>, seen': set<Binding>, aliases': Aliases, changed: bool)
    requires Bounded(f, assignments, seen, aliases) && i < |assignments|
    ensures Bounded(f, assignments', seen', aliases') && |assignments| <= |assignments'|
    ensures !changed ==>
              && assignments' == assignments && seen' == seen && aliases' == aliases
              && Settled(assignments[i], assignments, aliases)
    ensures Room(f, seen', aliases') + (if changed then 1 else 0) <= Room(f, seen, aliases)
  {
    assignments', seen', aliases', changed := assignments, seen, aliases, false;
    var (name, e) := assignments[i];
    LooksInside(f, i, assignments, seen, aliases);
    hide Bounded;
    hide Room;
    hide Names;
    hide Universe;
    hide Possible;
    var element := ElementOf(e, aliases);
    if element.Some? {
      assert Selects(assignments[i], aliases, (name, element.value));
      assignments', seen', changed := AddAssignment(f, (name, element.value), assignments, seen, aliases);
    }
    var container := ContainerOf(e, aliases);
    if container.Some? && name !in aliases {
      assert assignments'[i] == (name, e) && Follows(f, assignments', aliases, Aliased(name, container.value));
      OneMoreAlias(f, assignments', seen', aliases, name, container.value);
      aliases', changed := aliases[name := container.value], true;
    }
  }

  lemma LooksInside(f: Facts, i: nat, assignments: seq<Binding>, seen: set<Binding>, aliases: Aliases)
    requires Bounded(f, assignments, seen, aliases) && i < |assignments|
    ensures var (name, e) := assignments[i];
            && name in Names(f)
            && (ElementOf(e, aliases).Some? ==> (name, ElementOf(e, aliases).value) in Possible(f))
            && (ContainerOf(e, aliases).Some? ==> Holds(Universe(f), ContainerOf(e, aliases).value))
  {
    var (name, e) := assignments[i];
    UniverseIsClosed(f);
    assert assignments[i] in seen && assignments[i] in Possible(f);
    assert name in Names(f) && e in Universe(f);
    hide Names;
    hide Universe;
    ResolvedInside(e, aliases, Universe(f));
  }

  lemma OneMoreAlias(f: Facts, assignments: seq<Binding>, seen: set<Binding>, aliases: Aliases, name: string,
                     c: Container)
    requires Bounded(f, assignments, seen, aliases) && name in Names(f) && name !in aliases && Holds(Universe(f), c)
    requires Follows(f, assignments, aliases, Aliased(name, c))
    ensures Bounded(f, assignments, seen, aliases[name := c])
    ensures Room(f, seen, aliases[name := c]) == Room(f, seen, aliases) - 1
  {
    hide Names;
    hide Universe;
    hide Possible;
    hide Follows;
    hide Derived;
    OneMoreFact(f, assignments, aliases, Aliased(name, c));
    assert |aliases[name := c]| == |aliases| + 1;
  }

  /**
    The passes of `_expanded_callable_bindings`: they end, add only what the rules give, and leave nothing to expand.
   */
  method Expand(f: Facts) returns (assignments: seq<Binding>, aliases: Aliases)
    ensures f.assignments <= assignments && Saturated(f, assignments, aliases)
    ensures forall n :: n in f.inherited ==> n in aliases && aliases[n] == f.inherited[n]
    ensures forall b :: b in assignments ==> b in Possible(f)
    ensures Derived(f, assignments, aliases)
  {
    assignments, aliases := f.assignments, f.inherited;
    var seen := set b | b in assignments;
    StartIsBounded(f, seen);
    hide Bounded;
    hide Room;
    hide Derived;
    hide Settled;
    hide Unpacked;
    hide Iterated;
    var changed := true;
    while changed
      invariant Bounded(f, assignments, seen, aliases)
      invariant !changed ==> Saturated(f, assignments, aliases)
      decreases if changed then 1 + Room(f, seen, aliases) else 0
    {
      changed := false;
      ghost var room := Room(f, seen, aliases);
      RoomIsLeft(f, assignments, seen, aliases);
      assignments, seen, aliases, changed := LookAtAll(f, assignments, seen, aliases);
      ghost var before, known := assignments, changed;
      var more;
      assignments, seen, more := UnpackAll(f, assignments, seen, aliases);
      changed := changed || more;
      assignments, seen, more := IterateAll(f, assignments, seen, aliases);
      changed := changed || more;
      RoomIsLeft(f, assignments, seen, aliases);
    }
    PossibleOnly(f, assignments, seen, aliases);
  }

  lemma StartIsBounded(f: Facts, seen: set<Binding>)
    requires seen == set b | b in f.assignments
    ensures Bounded(f, f.assignments, seen, f.inherited)
  {
    UniverseIsClosed(f);
    GivenIsDerived(f);
    forall b | b in seen
      ensures b in Possible(f)
    {
      var i :| 0 <= i < |f.assignments| && f.assignments[i] == b;
      assert b == (b.0, b.1) && b.0 in Names(f) && b.1 in Universe(f);
    }
  }

  lemma PossibleOnly(f: Facts, assignments: seq<Binding>, seen: set<Binding>, aliases: Aliases)
    requires Bounded(f, assignments, seen, aliases)
    ensures f.assignments <= assignments
    ensures forall b :: b in assignments ==> b in Possible(f)
    ensures forall n :: n in f.inherited ==> n in aliases && aliases[n] == f.inherited[n]
    ensures Derived(f, assignments, aliases)
  {
  }

  /** The loop over the assignments, which grow while it runs. */
  method LookAtAll(f: Facts, assignments0: seq<Binding>, seen0: set<Binding>, aliases0: Aliases)
    returns (assignments: seq<Binding>, seen: set<Binding>, aliases: Aliases, changed: bool)
    requires Bounded(f, assignments0, seen0, aliases0)
    ensures Bounded(f, assignments, seen, aliases)
    ensures !changed ==> assignments == assignments0 && seen == seen0 && aliases == aliases0
    ensures !changed ==> SettledUpTo(|assignments|, assignments, aliases)
    ensures Room(f, seen, aliases) + (if changed then 1 else 0) <= Room(f, seen0, aliases0)
  {
    hide Bounded;
    hide Room;
    hide Settled;
    hide SettledUpTo;
    hide Names;
    hide Universe;
    hide Possible;
    NoneYet(assignments0, aliases0);
    assignments, seen, aliases, changed := assignments0, seen0, aliases0, false;
    var i := 0;
    while i < |assignments|
      invariant 0 <= i <= |assignments| && Bounded(f, assignments, seen, aliases)
      invariant !changed ==> assignments == assignments0 && seen == seen0 && aliases == aliases0
      invariant !changed ==> SettledUpTo(i, assignments, aliases)
      invariant Room(f, seen, aliases) + (if changed then 1 else 0) <= Room(f, seen0, aliases0)
      decreases Room(f, seen, aliases), |assignments| - i
    {
      RoomIsLeft(f, assignments, seen, aliases);
      var more;
      assignments, seen, aliases, more := Look(f, i, assignments, seen, aliases);
      changed := changed || more;
      OneMoreSettled(i, assignments, aliases);
      i := i + 1;
    }
  }

  method UnpackAll(f: Facts, assignments0: seq<Binding>, seen0: set<Binding>, aliases: Aliases)
    returns (assignments: seq<Binding>, seen: set<Binding>, changed: bool)
    requires Bounded(f, assignments0, seen0, aliases)
    ensures Bounded(f, assignments, seen, aliases)
    ensures !changed ==> assignments == assignments0 && seen == seen0
    ensures !changed ==> forall k :: 0 <= k < |f.unpackings| ==> Unpacked(f.unpackings[k], assignments, aliases)
    ensures Room(f, seen, aliases) + (if changed then 1 else 0) <= Room(f, seen0, aliases)
  {
    hide Room;
    hide AllBound;
    hide Bounded;
    hide Deferred;
    hide Inside;
    hide Names;
    hide Universe;
    assignments, seen, changed := assignments0, seen0, false;
    for k := 0 to |f.unpackings|
      invariant Bounded(f, assignments, seen, aliases)
      invariant !changed ==> assignments == assignments0 && seen == seen0
      invariant !changed ==> forall j :: 0 <= j < k ==> Unpacked(f.unpackings[j], assignments, aliases)
      invariant Room(f, seen, aliases) + (if changed then 1 else 0) <= Room(f, seen0, aliases)
    {
      var values := SequenceOf(f.unpackings[k].1, aliases);
      if values.Some? {
        DeferredInside(f, f.unpackings[k], assignments, seen, aliases);
        UnpackingDefers(f, k, aliases);
        var more;
        assignments, seen, more := AddAll(f, Pairs(f.unpackings[k].0, values.value), assignments, seen, aliases);
        changed := changed || more;
      }
    }
  }

  method IterateAll(f: Facts, assignments0: seq<Binding>, seen0: set<Binding>, aliases: Aliases)
    returns (assignments: seq<Binding>, seen: set<Binding>, changed: bool)
    requires Bounded(f, assignments0, seen0, aliases)
    ensures Bounded(f, assignments, seen, aliases)
    ensures !changed ==> assignments == assignments0 && seen == seen0
    ensures !changed ==> forall k :: 0 <= k < |f.iterations| ==> Iterated(f.iterations[k], assignments, aliases)
    ensures Room(f, seen, aliases) + (if changed then 1 else 0) <= Room(f, seen0, aliases)
  {
    hide Room;
    hide AllBound;
    hide Bounded;
    hide Deferred;
    hide Inside;
    hide Names;
    hide Universe;
    assignments, seen, changed := assignments0, seen0, false;
    for k := 0 to |f.iterations|
      invariant Bounded(f, assignments, seen, aliases)
      invariant !changed ==> assignments == assignments0 && seen == seen0
      invariant !changed ==> forall j :: 0 <= j < k ==> Iterated(f.iterations[j], assignments, aliases)
      invariant Room(f, seen, aliases) + (if changed then 1 else 0) <= Room(f, seen0, aliases)
    {
      var values := SequenceOf(f.iterations[k].1, aliases);
      if values.Some? {
        DeferredInside(f, f.iterations[k], assignments, seen, aliases);
        IterationDefers(f, k, aliases);
        var more;
        assignments, seen, more := AddAll(f, IterationPairs(f.iterations[k].0, values.value), assignments, seen,
                                          aliases);
        changed := changed || more;
      }
    }
  }

  lemma UnpackingDefers(f: Facts, k: nat, aliases: Aliases)
    requires k < |f.unpackings| && SequenceOf(f.unpackings[k].1, aliases).Some?
    ensures var pairs := Pairs(f.unpackings[k].0, SequenceOf(f.unpackings[k].1, aliases).value);
            forall i :: 0 <= i < |pairs| ==> Deferred(f, aliases, pairs[i])
  {
    var pairs := PairsFrom(f.unpackings[k], aliases);
    assert forall i :: 0 <= i < |pairs| ==> pairs[i] in PairsFrom(f.unpackings[k], aliases);
  }

  lemma IterationDefers(f: Facts, k: nat, aliases: Aliases)
    requires k < |f.iterations| && SequenceOf(f.iterations[k].1, aliases).Some?
    ensures var pairs := IterationPairs(f.iterations[k].0, SequenceOf(f.iterations[k].1, aliases).value);
            forall i :: 0 <= i < |pairs| ==> Deferred(f, aliases, pairs[i])
  {
    var pairs := PairsFromEach(f.iterations[k], aliases);
    assert forall i :: 0 <= i < |pairs| ==> pairs[i] in PairsFromEach(f.iterations[k], aliases);
  }

  /** What a deferred unpacking or iteration binds is inside the universe. */
  lemma DeferredInside(f: Facts, u: (Target, Expr), assignments: seq<Binding>, seen: set<Binding>, aliases: Aliases)
    requires Bounded(f, assignments, seen, aliases) && (u in f.unpackings || u in f.iterations)
             && SequenceOf(u.1, aliases).Some?
    ensures var values := SequenceOf(u.1, aliases).value;
            Inside(Pairs(u.0, values), Names(f), Universe(f))
              && Inside(IterationPairs(u.0, values), Names(f), Universe(f))
  {
    var values := SequenceOf(u.1, aliases).value;
    UniverseIsClosed(f);
    assert TargetNames(u.0) <= Names(f) && u.1 in Universe(f) by { DeferredNames(f, u); }
    hide Names;
    hide Universe;
    ResolvedInside(u.1, aliases, Universe(f));
    assert Holds(Universe(f), Elements(values));
    PairsInside(u.0, values, Names(f), Universe(f));
    IterationInside(u.0, values, Names(f), Universe(f));
  }

  lemma DeferredNames(f: Facts, u: (Target, Expr))
    requires u in f.unpackings || u in f.iterations
    ensures TargetNames(u.0) <= Names(f) && u.1 in Universe(f)
  {
    UniverseIsClosed(f);
    forall n | n in TargetNames(u.0)
      ensures n in Names(f)
    {
      if u in f.unpackings {
        var i :| 0 <= i < |f.unpackings| && f.unpackings[i] == u;
      } else {
        var i :| 0 <= i < |f.iterations| && f.iterations[i] == u;
      }
    }
  }

  // ------------------------------------------------- unresolved reassignments

  /** Some binding of the name is no container that is known. */
  predicate Unresolved(n: string, assignments: seq<Binding>, aliases: Aliases) {
    exists i :: 0 <= i < |assignments| && assignments[i].0 == n && ContainerOf(assignments[i].1, aliases).None?
  }

  /** Name after name, in the order the set of bound names happens to have; each look sees what was dropped before. */
  function Dropped(order: seq<string>, assignments: seq<Binding>, aliases: Aliases): Aliases {
    if order == [] then aliases
    else Dropped(order[1..], assignments,
                 if Unresolved(order[0], assignments, aliases) then aliases - {order[0]} else aliases)
  }

  method DropUnresolved(order: seq<string>, assignments: seq<Binding>, aliases0: Aliases) returns (aliases: Aliases)
    ensures aliases == Dropped(order, assignments, aliases0)
  {
    aliases := aliases0;
    for k := 0 to |order|
      invariant Dropped(order[k..], assignments, aliases) == Dropped(order, assignments, aliases0)
    {
      assert order[k..][0] == order[k] && order[k..][1..] == order[k + 1..];
      if Unresolved(order[k], assignments, aliases) {
        aliases := aliases - {order[k]};
      }
    }
  }

  /** `_expanded_callable_bindings`: containers of outer scopes a bound name does not hide, the passes, the removal. */
  method ExpandedBindings(found: Facts, bound: seq<string>) returns (assignments: seq<Binding>, aliases: Aliases)
    ensures var f := found.(inherited := map n | n in found.inherited && n !in bound :: found.inherited[n]);
            exists all :: Saturated(f, assignments, all) && Derived(f, assignments, all)
              && aliases == Dropped(bound, assignments, all)
  {
    hide Saturated;
    hide Derived;
    hide Dropped;
    var f := found.(inherited := map n | n in found.inherited && n !in bound :: found.inherited[n]);
    var all;
    assignments, all := Expand(f);
    aliases := DropUnresolved(bound, assignments, all);
  }

  predicate Submap(a: Aliases, b: Aliases) {
    forall n :: n in a ==> n in b && b[n] == a[n]
  }

  /** What resolves with fewer containers known resolves the same with more. */
  lemma {:induction false} MappingResolvesMore(e: Expr, a: Aliases, b: Aliases)
    requires Submap(a, b)
    ensures MappingOf(e, a).Some? ==> MappingOf(e, b) == MappingOf(e, a)
    decreases e, 1
  {
    if e.Dict? && |e.keys| == |e.values| {
      EntriesResolveMore(e, |e.keys|, a, b);
    }
  }

  lemma {:induction false} EntriesResolveMore(e: Expr, n: nat, a: Aliases, b: Aliases)
    requires Submap(a, b) && e.Dict? && |e.keys| == |e.values| && n <= |e.keys|
    ensures EntriesOf(e, n, a).Some? ==> EntriesOf(e, n, b) == EntriesOf(e, n, a)
    decreases e, 0, n
  {
    if n > 0 {
      EntriesResolveMore(e, n - 1, a, b);
      MappingResolvesMore(e.values[n - 1], a, b);
    }
  }

  lemma UnresolvedStays(n: string, assignments: seq<Binding>, a: Aliases, b: Aliases)
    requires Submap(a, b) && Unresolved(n, assignments, b)
    ensures Unresolved(n, assignments, a)
  {
    var i :| 0 <= i < |assignments| && assignments[i].0 == n && ContainerOf(assignments[i].1, b).None?;
    MappingResolvesMore(assignments[i].1, a, b);
  }

  function Doomed(names: set<string>, assignments: seq<Binding>, aliases: Aliases): set<string> {
    set n | n in names && Unresolved(n, assignments, aliases)
  }

  /** All bindings of the name are containers, but one of them only through a name that is dropped. */
  predicate Hangs(n: string, names: set<string>, assignments: seq<Binding>, aliases: Aliases) {
    && n in names && n in aliases && !Unresolved(n, assignments, aliases)
    && Unresolved(n, assignments, aliases - Doomed(names, assignments, aliases))
  }

  ghost predicate Enumerates(order: seq<string>, names: set<string>) {
    && (forall n :: n in order <==> n in names)
    && forall i, j :: 0 <= i < j < |order| ==> order[i] != order[j]
  }

  /** Whatever the order: names it does not reach stay, nothing is added, and doomed names it reaches go. */
  lemma {:induction false} DroppedWithin(order: seq<string>, names: set<string>, assignments: seq<Binding>,
                                         aliases: Aliases, now: Aliases)
    requires Submap(now, aliases)
    ensures var after := Dropped(order, assignments, now);
            && Submap(after, now)
            && (forall n :: n in now && n !in order ==> n in after)
            && (forall n :: n in order && n in Doomed(names, assignments, aliases) ==> n !in after)
    decreases |order|
  {
    hide Unresolved;
    if order != [] {
      var n := order[0];
      var next := if Unresolved(n, assignments, now) then now - {n} else now;
      DroppedWithin(order[1..], names, assignments, aliases, next);
      if n in Doomed(names, assignments, aliases) {
        UnresolvedStays(n, assignments, now, aliases);
      }
      assert forall m :: m in order ==> m == n || m in order[1..];
    }
  }

  lemma StaysResolved(n: string, names: set<string>, assignments: seq<Binding>, aliases: Aliases, now: Aliases)
    requires n in names && !Hangs(n, names, assignments, aliases)
    requires Submap(now, aliases) && Submap(aliases - Doomed(names, assignments, aliases), now)
    ensures n in now && n !in Doomed(names, assignments, aliases) ==> !Unresolved(n, assignments, now)
  {
    hide Unresolved;
    if Unresolved(n, assignments, now) {
      UnresolvedStays(n, assignments, aliases - Doomed(names, assignments, aliases), now);
    }
  }

  /** If no name hangs on a dropped one, exactly the doomed names go. */
  lemma {:induction false} DroppedExactly(order: seq<string>, names: set<string>, assignments: seq<Binding>,
                                          aliases: Aliases, now: Aliases)
    requires forall n :: n in names ==> !Hangs(n, names, assignments, aliases)
    requires forall n :: n in order ==> n in names
    requires Submap(now, aliases) && Submap(aliases - Doomed(names, assignments, aliases), now)
    ensures Submap(aliases - Doomed(names, assignments, aliases), Dropped(order, assignments, now))
    decreases |order|
  {
    hide Unresolved;
    if order != [] {
      var n := order[0];
      assert n in order;
      StaysResolved(n, names, assignments, aliases, now);
      DroppedExactly(order[1..], names, assignments, aliases,
                     if Unresolved(n, assignments, now) then now - {n} else now);
    }
  }

  lemma {:induction false} DroppedTogether(a: seq<string>, b: seq<string>, assignments: seq<Binding>, aliases: Aliases)
    ensures Dropped(a + b, assignments, aliases) == Dropped(b, assignments, Dropped(a, assignments, aliases))
    decreases |a|
  {
    hide Unresolved;
    if a == [] {
      assert a + b == b;
    } else {
      assert (a + b)[1..] == a[1..] + b;
      DroppedTogether(a[1..], b, assignments,
                      if Unresolved(a[0], assignments, aliases) then aliases - {a[0]} else aliases);
    }
  }

  lemma {:induction false} SomeOrder(names: set<string>) returns (order: seq<string>)
    ensures Enumerates(order, names)
    decreases |names|
  {
    if names == {} {
      order := [];
    } else {
      var n :| n in names;
      var rest := SomeOrder(names - {n});
      order := [n] + rest;
    }
  }

  /** A name that hangs on a dropped one stays if it comes first, and goes if it comes last. */
  lemma HangingNameDepends(n: string, names: set<string>, assignments: seq<Binding>, aliases: Aliases)
    returns (first: seq<string>, last: seq<string>)
    requires Hangs(n, names, assignments, aliases)
    ensures Enumerates(first, names) && n in Dropped(first, assignments, aliases)
    ensures Enumerates(last, names) && n !in Dropped(last, assignments, aliases)
  {
    hide Unresolved;
    var rest := SomeOrder(names - {n});
    first, last := [n] + rest, rest + [n];
    DroppedWithin(rest, names, assignments, aliases, aliases);
    assert [n] + rest == first && first[0] == n && first[1..] == rest;
    var after := Dropped(rest, assignments, aliases);
    DroppedTogether(rest, [n], assignments, aliases);
    assert Submap(after, aliases - Doomed(names, assignments, aliases)) by {
      forall m | m in after
        ensures m !in Doomed(names, assignments, aliases)
      {
        assert m in Doomed(names, assignments, aliases) ==> m in rest;
      }
    }
    UnresolvedStays(n, assignments, after, aliases - Doomed(names, assignments, aliases));
    assert [n][1..] == [] && Dropped([n], assignments, after) == after - {n};
  }

  /**
    The bound names are a set, and the source drops them in whatever order it comes in: the containers that are left
    are the same for every order if and only if no name hangs on a dropped one.
   */
  lemma OrderDoesNotMatterExactly(names: set<string>, assignments: seq<Binding>, aliases: Aliases)
    ensures (forall a, b :: Enumerates(a, names) && Enumerates(b, names)
                            ==> Dropped(a, assignments, aliases) == Dropped(b, assignments, aliases))
            <==> forall n :: n in names ==> !Hangs(n, names, assignments, aliases)
  {
    hide Hangs;
    hide Dropped;
    hide Doomed;
    if forall n :: n in names ==> !Hangs(n, names, assignments, aliases) {
      forall a | Enumerates(a, names)
        ensures Dropped(a, assignments, aliases) == aliases - Doomed(names, assignments, aliases)
      {
        OnlyDoomedGo(a, names, assignments, aliases);
      }
    } else {
      var n :| n in names && Hangs(n, names, assignments, aliases);
      var first, last := HangingNameDepends(n, names, assignments, aliases);
    }
  }

  lemma OnlyDoomedGo(order: seq<string>, names: set<string>, assignments: seq<Binding>, aliases: Aliases)
    requires Enumerates(order, names) && forall n :: n in names ==> !Hangs(n, names, assignments, aliases)
    ensures Dropped(order, assignments, aliases) == aliases - Doomed(names, assignments, aliases)
  {
    hide Hangs;
    hide Dropped;
    hide Unresolved;
    DroppedWithin(order, names, assignments, aliases, aliases);
    DroppedExactly(order, names, assignments, aliases, aliases);
  }

  /** `a = [f]`, `a = call()`, `x = a`. */
  const TWICE := Facts([("a", Sequence([Leaf("f")])), ("a", Leaf("call()")), ("x", Name("a"))], [], [], map[])

  const ONE: Aliases := map["a" := Elements([Leaf("f")])]
  const BOTH: Aliases := map["a" := Elements([Leaf("f")]), "x" := Elements([Leaf("f")])]

  lemma TwiceIsDerived()
    ensures Derived(TWICE, TWICE.assignments, BOTH)
  {
    hide Derived;
    var c := Elements([Leaf("f")]);
    var bindings := TWICE.assignments;
    GivenIsDerived(TWICE);
    assert bindings[0].0 == "a" && ContainerOf(bindings[0].1, map[]) == Some(c);
    OneMoreFact(TWICE, bindings, map[], Aliased("a", c));
    assert map[]["a" := c] == ONE;
    assert bindings[2].0 == "x" && ContainerOf(bindings[2].1, ONE) == Some(c);
    OneMoreFact(TWICE, bindings, ONE, Aliased("x", c));
    assert ONE["x" := c] == BOTH;
  }

  lemma TwiceIsSaturated()
    ensures Saturated(TWICE, TWICE.assignments, BOTH)
  {
  }

  lemma TwiceUnresolved()
    ensures var bindings := TWICE.assignments;
            && !Unresolved("x", bindings, BOTH) && Unresolved("a", bindings, BOTH)
            && BOTH - {"a"} == map["x" := Elements([Leaf("f")])] && Unresolved("x", bindings, BOTH - {"a"})
  {
    var bindings := TWICE.assignments;
    assert bindings[1].0 == "a" && ContainerOf(bindings[1].1, BOTH).None?;
    assert bindings[2].0 == "x" && ContainerOf(bindings[2].1, BOTH - {"a"}).None?;
    assert forall i :: 0 <= i < |bindings| && bindings[i].0 == "x" ==> i == 2;
  }

  /** What the passes make of that is settled, and then the order decides whether `x` is a container. */
  lemma OrderDecides()
    ensures Saturated(TWICE, TWICE.assignments, BOTH) && Derived(TWICE, TWICE.assignments, BOTH)
    ensures Dropped(["x", "a"], TWICE.assignments, BOTH) == map["x" := Elements([Leaf("f")])]
    ensures Dropped(["a", "x"], TWICE.assignments, BOTH) == map[]
  {
    TwiceIsDerived();
    TwiceIsSaturated();
    TwiceUnresolved();
    hide Derived;
    hide Saturated;
    hide Unresolved;
    var bindings := TWICE.assignments;
    assert ["x", "a"][1..] == ["a"] && ["a", "x"][1..] == ["x"] && ["a"][1..] == [] && ["x"][1..] == [];
    assert Dropped(["a"], bindings, BOTH) == BOTH - {"a"};
    assert Dropped(["x"], bindings, BOTH - {"a"}) == BOTH - {"a"} - {"x"};
  }
}
