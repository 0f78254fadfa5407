/**
  Fenced leases: what a store that lost its lock to another store of its process can still do.

  The repository means a fenced store never to commit for the target again.  The code checks the
  lock only where it requires a lease, not where it acquires one, so there is one exception, given
  here exactly; it is gone for good as soon as any other store commits a snapshot of the target.
 */
module Fencing {
  import opened Wrappers
  import opened Records
  import opened Durable
  import opened Protocol
  import opened Commit
  import opened Leases
  import opened Operations
  import opened Effects
  import opened Decisions
  import opened Growth
  import opened Acceptance
  import opened Publication
  import opened Crash
  import opened StoreRuns
  import opened Safety
  import opened Ledger
  import opened Terminal

  // ------------------------------------------------------------------ locks

  /** Handles closed before stay closed, and every lease is an old one or was granted since. */
  ghost predicate LocksAdvance(l: Locks, l': Locks) {
    && l.unused <= l'.unused
    && (forall t, h: Handle :: h < l.unused && IsOpen(l'.held, t, h) ==> IsOpen(l.held, t, h))
    && (forall t :: t in l'.leases ==> (t in l.leases && l'.leases[t] == l.leases[t]) || l'.leases[t].token >= l.unused)
  }

  lemma AcquireAdvances(l: Locks, t: Target, expected: Option<Token>, fence: bool)
    ensures LocksAdvance(l, Acquire(l, t, expected, fence).0)
  {
  }

  lemma ReleaseAdvances(l: Locks, t: Target)
    ensures LocksAdvance(l, Release(l, t))
  {
  }

  lemma AdvanceTwice(l: Locks, l1: Locks, l2: Locks)
    requires LocksAdvance(l, l1) && LocksAdvance(l1, l2)
    ensures LocksAdvance(l, l2)
  {
  }

  lemma ExecuteAdvances(v: View, t: Target, expected: Option<Token>, step: Step)
    requires v.disk.manifest.Some?
    ensures LocksAdvance(v.locks, Execute(v, t, expected, step).0.locks)
  {
    hide LocksAdvance;
    hide Acquire;
    hide Release;
    hide Execute;
    var locks := Settle(v.locks, t, expected, step.mode).0;
    assert LocksAdvance(v.locks, v.locks) by { SameAdvances(v.locks); }
    if step.mode.Claim? {
      AcquireAdvances(v.locks, t, expected, step.mode.fence);
    }
    ReleaseAdvances(locks, t);
    AdvanceTwice(v.locks, locks, Release(locks, t));
    ExecuteLocks(v, t, expected, step);
  }

  lemma SameAdvances(l: Locks)
    ensures LocksAdvance(l, l)
  {
  }

  lemma PerformAdvances(v: View, op: Operation, note: string)
    ensures LocksAdvance(v.locks, Perform(v, op, note).0.locks)
  {
    hide LocksAdvance;
    hide Accepts;
    hide Execute;
    hide Decide;
    hide Admitted;
    hide OwnAmbiguous;
    hide Settled;
    SameAdvances(v.locks);
    var (v1, ok) := Load(v);
    match op
    case Initialize(_) =>
    case Publish(_, _, _) =>
    case Resolve(t, attempt, retry, reason) =>
      if ok && StateAt(v1.disk, t).Some? {
        var first := OwnAmbiguous(StateAt(v1.disk, t).value.snapshot.body, attempt, note);
        if first.Some? {
          ExecuteAdvances(v1, t, OwnerOf(v1.disk, t), first.value);
          var v2 := Execute(v1, t, OwnerOf(v1.disk, t), first.value).0;
          if v2.disk.manifest.Some? && StateAt(v2.disk, t).Some? {
            var b := StateAt(v2.disk, t).value.snapshot.body;
            ExecuteAdvances(v2, t, b.owner, Settled(b, retry, reason, note));
            AdvanceTwice(v.locks, v2.locks, Execute(v2, t, b.owner, Settled(b, retry, reason, note)).0.locks);
          }
        }
      }
    case _ =>
      if ok && Decide(op, note, v1.disk).Advance? {
        ExecuteAdvances(v1, op.target, OwnerOf(v1.disk, op.target), Decide(op, note, v1.disk).step);
      }
  }

  /** A store whose lease on `t` lost its lock. */
  predicate FencedView(v: View, t: Target) {
    t in v.locks.leases && !IsOpen(v.locks.held, t, v.locks.leases[t].handle)
  }

  ghost predicate Fenced(w: World, s: StoreId, t: Target) {
    Leased(w, s, t) && !IsOpen(w.held, t, LeaseOf(w, s, t).handle)
  }

  /** Releasing a fenced lease touches neither the lock files nor any process's lease table. */
  lemma ReleasingFencedIsHarmless(actions: seq<Action>, s: StoreId, t: Target)
    requires Fenced(Run(START, actions), s, t)
    ensures var w := Run(START, actions);
            var l := Release(LocksOf(w, s), t);
            l.held == w.held && l.table == TableOf(w, w.stores[s].process)
  {
    hide After;
    EveryRunIsSane(actions);
  }

  /** Nor does discarding a store touch a lock any of its fenced leases lost. */
  lemma DroppingKeepsOtherLocks(actions: seq<Action>, s: StoreId, t: Target)
    requires Fenced(Run(START, actions), s, t)
    ensures var w := Run(START, actions);
            var w' := Dropped(w, s);
            t in w.held ==> t in w'.held && w'.held[t] == w.held[t]
  {
    hide After;
  }

  // ---------------------------------------------- what a fenced store may do

  /** The store's token is still the durable owner of a running attempt past its boundary. */
  predicate StillOwns(v: View, t: Target)
    requires t in v.locks.leases
  {
    && StateAt(v.disk, t).Some?
    && var b := StateAt(v.disk, t).value.snapshot.body;
       b.status.Running? && b.effect && b.owner == Some(v.locks.leases[t].token)
  }

  predicate MarksAmbiguity(op: Operation, b: Body) {
    match op
    case Prepare(_, identity, _) => b.identity == identity
    case Resolve(_, attempt, _, reason) => b.attempt == attempt && reason != ""
    case _ => false
  }

  /** The step a fenced store may still carry out. */
  predicate AmbiguityStep(step: Step, b: Body) {
    && step.mode == Claim(true, false) && step.before == [] && step.blocked.None? && step.snapshot
    && !step.makesFolder && step.decided.None? && step.body.status.Ambiguous?
    && step.body.attempt == b.attempt && step.body.target == b.target
  }

  lemma DecidedWhenFenced(op: Operation, note: string, d: Disk)
    requires d.manifest.Some? && Accepts(d) && ChainsRecorded(d) && (OnExistingState(op) || op.Prepare?)
             && StateAt(d, op.target).Some?
    ensures var v := Decide(op, note, d);
            var b := StateAt(d, op.target).value.snapshot.body;
            && (v.Advance? && v.step.mode.Claim? && !v.step.mode.adopt && b.owner.Some? ==>
                  AmbiguityStep(v.step, b) && b.status.Running? && b.effect && MarksAmbiguity(op, b))
            && (b.status.Running? && b.effect && MarksAmbiguity(op, b) ==> v.Advance? && AmbiguityStep(v.step, b))
  {
    hide Accepts;
    hide ValidLedger;
    hide AlreadyDecided;
    AcceptedState(d, op.target);
  }

  /** A fenced store can settle no step except one that claims under the durable owner's token. */
  lemma FencedGrant(v: View, t: Target, expected: Option<Token>, step: Step)
    requires v.disk.manifest.Some? && FencedView(v, t)
    ensures var grant := Settle(v.locks, t, expected, step.mode).1;
            && Settle(v.locks, t, expected, step.mode).0 == v.locks
            && (grant.Denied? <==> !(step.mode.Claim? && expected == Some(v.locks.leases[t].token)))
            && (!grant.Denied? ==> grant == Kept(v.locks.leases[t].token))
  {
  }

  lemma FencedIsTurnedAway(v: View, t: Target, expected: Option<Token>, step: Step)
    requires v.disk.manifest.Some? && FencedView(v, t)
    requires !(step.mode.Claim? && !step.mode.adopt && expected == Some(v.locks.leases[t].token))
    ensures Execute(v, t, expected, step).0 == v
  {
    FencedGrant(v, t, expected, step);
  }

  /** Carrying out an ambiguity step under a lease still in the table of leases. */
  lemma AmbiguityLands(v: View, t: Target, step: Step, b: Body)
    requires v.disk.manifest.Some? && FencedView(v, t) && AmbiguityStep(step, b) && b.target == t
    requires LawfulStep(ChainOf(v.disk.manifest.value, t), t, step)
    ensures var (v', out) := Execute(v, t, Some(v.locks.leases[t].token), step);
            var chain := ChainIn(v.disk, t);
            && (out.Finished? <==> v.quota >= 3)
            && (out.Finished? ==>
                  ChainIn(v'.disk, t)
                    == chain + [EntryOf(Seal(Owned(step.body, step.owner, v.locks.leases[t].token), chain))])
            && (!out.Finished? ==> out.Stopped? && ChainIn(v'.disk, t) == chain)
            && (step.owner.TakeOwner? ==> v'.locks == v.locks)
  {
    FinishPublishes(v, t, step, v.locks.leases[t].token);
  }

  /**
    A fenced store commits a snapshot of the target exactly when its own token is still the durable
    owner of an attempt past the boundary, and then only that the attempt is ambiguous.
   */
  lemma FencedStoreCommitsOnlyAmbiguity(v: View, op: Operation, note: string)
    requires v.disk.manifest.Some? && Accepts(v.disk) && ChainsRecorded(v.disk)
    requires !op.Initialize? && !op.Publish? && FencedView(v, op.target)
    ensures var t := op.target;
            var (chain, chain') := (ChainIn(v.disk, t), ChainIn(Perform(v, op, note).0.disk, t));
            && (chain' != chain <==>
                  StillOwns(v, t) && MarksAmbiguity(op, StateAt(v.disk, t).value.snapshot.body) && v.quota >= 3)
            && (chain' != chain ==>
                  && |chain'| == |chain| + 1 && chain <= chain'
                  && HeadBody(chain').status.Ambiguous?
                  && HeadBody(chain').attempt == StateAt(v.disk, t).value.snapshot.body.attempt)
  {
    hide Accepts;
    hide Execute;
    hide Decide;
    hide LawfulStep;
    hide AmbiguityStep;
    LoadAccepted(v);
    if op.Resolve? {
      FencedResolve(v, op.target, op.attempt, op.retry, op.reason, note);
    } else {
      FencedDecision(v, op, note);
    }
  }

  lemma FencedDecision(v: View, op: Operation, note: string)
    requires v.disk.manifest.Some? && Accepts(v.disk) && ChainsRecorded(v.disk)
    requires (OnExistingState(op) || op.Prepare?) && FencedView(v, op.target)
    ensures var t := op.target;
            var (chain, chain') := (ChainIn(v.disk, t), ChainIn(PerformDecided(v, op, note).0.disk, t));
            && (chain' != chain <==>
                  StillOwns(v, t) && MarksAmbiguity(op, StateAt(v.disk, t).value.snapshot.body) && v.quota >= 3)
            && (chain' != chain ==>
                  && |chain'| == |chain| + 1 && chain <= chain'
                  && HeadBody(chain').status.Ambiguous?
                  && HeadBody(chain').attempt == StateAt(v.disk, t).value.snapshot.body.attempt)
  {
    hide Accepts;
    hide Decide;
    hide LawfulStep;
    hide Execute;
    hide AmbiguityStep;
    LoadAccepted(v);
    var (v1, ok) := Load(v);
    var t := op.target;
    var verdict := Decide(op, note, v.disk);
    if StateAt(v.disk, t).Some? {
      AcceptedState(v.disk, t);
      DecidedWhenFenced(op, note, v.disk);
    }
    if verdict.Advance? {
      DecisionIsLawful(op, note, v.disk);
      var expected := OwnerOf(v.disk, t);
      if !(verdict.step.mode.Claim? && !verdict.step.mode.adopt && expected == Some(v.locks.leases[t].token)) {
        FencedIsTurnedAway(v1, t, expected, verdict.step);
        assert StillOwns(v, t) && MarksAmbiguity(op, StateAt(v.disk, t).value.snapshot.body) ==>
          AmbiguityStep(verdict.step, StateAt(v.disk, t).value.snapshot.body);
        assert StillOwns(v, t) && MarksAmbiguity(op, StateAt(v.disk, t).value.snapshot.body) ==>
          verdict.step.mode == Claim(true, false) by {
          if StateAt(v.disk, t).Some? && AmbiguityStep(verdict.step, StateAt(v.disk, t).value.snapshot.body) {
            AmbiguityMode(verdict.step, StateAt(v.disk, t).value.snapshot.body);
          }
        }
      } else {
        AmbiguityMode(verdict.step, StateAt(v.disk, t).value.snapshot.body);
        AmbiguityLands(v1, t, verdict.step, StateAt(v.disk, t).value.snapshot.body);
      }
    }
  }

  lemma AmbiguityMode(step: Step, b: Body)
    requires AmbiguityStep(step, b)
    ensures step.mode == Claim(true, false) && step.body.status.Ambiguous? && step.body.attempt == b.attempt
  {
  }

  lemma FencedResolve(v: View, t: Target, attempt: int, retry: bool, reason: string, note: string)
    requires v.disk.manifest.Some? && Accepts(v.disk) && ChainsRecorded(v.disk) && FencedView(v, t)
    ensures var (chain, chain') := (ChainIn(v.disk, t),
                                    ChainIn(PerformResolve(v, t, attempt, retry, reason, note).0.disk, t));
            && (chain' != chain <==>
                  StillOwns(v, t) && StateAt(v.disk, t).value.snapshot.body.attempt == attempt && reason != ""
                    && v.quota >= 3)
            && (chain' != chain ==>
                  && |chain'| == |chain| + 1 && chain <= chain'
                  && HeadBody(chain').status.Ambiguous?
                  && HeadBody(chain').attempt == StateAt(v.disk, t).value.snapshot.body.attempt)
  {
    hide Accepts;
    hide LawfulStep;
    hide Finish;
    hide Acquire;
    hide Holds;
    hide Settled;
    LoadAccepted(v);
    var (v1, ok) := Load(v);
    if reason != "" && StateAt(v.disk, t).Some? {
      var b := StateAt(v.disk, t).value.snapshot.body;
      AcceptedState(v.disk, t);
      OwningIsLawful(b, ChainOf(v.disk.manifest.value, t), t, attempt, note);
      var first := OwnAmbiguous(b, attempt, note);
      if first.Some? {
        var expected := OwnerOf(v.disk, t);
        FencedGrant(v1, t, expected, first.value);
        if expected == Some(v.locks.leases[t].token) && !first.value.mode.adopt {
          AmbiguityLands(v1, t, first.value, b);
        }
        var (v2, out) := Execute(v1, t, expected, first.value);
        if !out.Stopped? && StateAt(v2.disk, t).Some? {
          var b2 := StateAt(v2.disk, t).value.snapshot.body;
          SettlingRequires(b2, retry, reason, note);
          FencedGrant(v2, t, b2.owner, Settled(b2, retry, reason, note));
        }
      }
    }
  }

  lemma SettlingRequires(b: Body, retry: bool, reason: string, note: string)
    ensures Settled(b, retry, reason, note).mode.Require?
  {
  }

  // ------------------------------------------------ whom a commit names owner

  /** No owner, or a token this store already had for `t`, or one never granted before. */
  predicate GrantedTo(owner: Option<Token>, l: Locks, t: Target) {
    || owner.None?
    || (t in l.leases && owner.value == l.leases[t].token)
    || owner.value >= l.unused
  }

  ghost predicate NamesOwnerOf(chain: seq<Entry>, chain': seq<Entry>, l: Locks, t: Target) {
    chain' != chain ==> chain' != [] && GrantedTo(HeadBody(chain').owner, l, t)
  }

  lemma TokenIsGranted(v: View, t: Target, expected: Option<Token>, step: Step)
    ensures var grant := Settle(v.locks, t, expected, step.mode).1;
            && (!grant.Denied? ==> GrantedTo(Some(grant.token), v.locks, t))
            && (!grant.Denied? && step.mode.Require? ==> GrantedTo(expected, v.locks, t))
  {
  }

  /** A step that commits names an owner granted to the store that carries it out. */
  lemma StepNamesOwner(v: View, t: Target, expected: Option<Token>, step: Step)
    requires v.disk.manifest.Some? && LawfulStep(ChainOf(v.disk.manifest.value, t), t, step)
    requires step.owner.KeepOwner? ==> step.mode.Require? && step.body.owner == expected
    ensures NamesOwnerOf(ChainIn(v.disk, t), ChainIn(Execute(v, t, expected, step).0.disk, t), v.locks, t)
  {
    hide Settle;
    hide Finish;
    hide MayFollow;
    hide Appended;
    hide LawfulStep;
    var d' := Execute(v, t, expected, step).0.disk;
    ExecuteEffect(v, t, expected, step);
    TokenIsGranted(v, t, expected, step);
    if !SameChains(v.disk, d') {
      AppendedLast(v.disk, d', t, Owned(step.body, step.owner, TokenFor(v, t, expected, step)));
    }
  }

  lemma CommitNamesOwner(v: View, op: Operation, note: string)
    requires v.disk.manifest.Some? && ChainsRecorded(v.disk) && !op.Initialize? && !op.Publish?
    ensures NamesOwnerOf(ChainIn(v.disk, op.target), ChainIn(Perform(v, op, note).0.disk, op.target), v.locks,
                         op.target)
  {
    hide Accepts;
    hide Execute;
    hide Decide;
    hide LawfulStep;
    hide NamesOwnerOf;
    hide OwnAmbiguous;
    hide Settled;
    hide GrowsBy;
    hide Heads;
    var t := op.target;
    var (v1, ok) := Load(v);
    assert NamesOwnerOf(ChainIn(v.disk, t), ChainIn(v.disk, t), v.locks, t) by {
      NothingNamed(ChainIn(v.disk, t), v.locks, t);
    }
    if op.Resolve? {
      if op.reason != "" && ok && StateAt(v1.disk, t).Some? {
        var b := StateAt(v1.disk, t).value.snapshot.body;
        if OwnAmbiguous(b, op.attempt, note).Some? {
          ResolveNamesOwner(v1, t, op.attempt, op.retry, op.reason, note);
          var (v2, out) := Execute(v1, t, OwnerOf(v1.disk, t), OwnAmbiguous(b, op.attempt, note).value);
          var v' := PerformResolve(v, t, op.attempt, op.retry, op.reason, note).0;
          if out.Stopped? || v2.disk.manifest.None? || StateAt(v2.disk, t).None? {
            assert v' == v2;
          } else {
            var b2 := StateAt(v2.disk, t).value.snapshot.body;
            assert v' == Execute(v2, t, b2.owner, Settled(b2, op.retry, op.reason, note)).0;
          }
        }
      }
    } else if ok && Decide(op, note, v1.disk).Advance? {
      DecisionIsLawful(op, note, v1.disk);
      KeptOwner(op, note, v1.disk);
      StepNamesOwner(v1, t, OwnerOf(v1.disk, t), Decide(op, note, v1.disk).step);
    }
  }

  lemma NothingNamed(chain: seq<Entry>, l: Locks, t: Target)
    ensures NamesOwnerOf(chain, chain, l, t)
  {
  }

  lemma KeptOwner(op: Operation, note: string, d: Disk)
    requires d.manifest.Some? && (OnExistingState(op) || op.Prepare?)
    ensures var v := Decide(op, note, d);
            v.Advance? && v.step.owner.KeepOwner? ==> v.step.mode.Require? && v.step.body.owner == OwnerOf(d, op.target)
  {
    if OnExistingState(op) && StateAt(d, op.target).Some? {
      UpdateMeaning(op, note, d.folders[op.target], d.manifest.value, d.recoveries);
    }
  }

  lemma ResolveNamesOwner(v: View, t: Target, attempt: int, retry: bool, reason: string, note: string)
    requires v.disk.manifest.Some? && Accepts(v.disk) && ChainsRecorded(v.disk) && StateAt(v.disk, t).Some?
    requires OwnAmbiguous(StateAt(v.disk, t).value.snapshot.body, attempt, note).Some?
    ensures var first := OwnAmbiguous(StateAt(v.disk, t).value.snapshot.body, attempt, note).value;
            var (v2, out) := Execute(v, t, OwnerOf(v.disk, t), first);
            && NamesOwnerOf(ChainIn(v.disk, t), ChainIn(v2.disk, t), v.locks, t)
            && (!out.Stopped? && v2.disk.manifest.Some? && StateAt(v2.disk, t).Some? ==>
                  var b := StateAt(v2.disk, t).value.snapshot.body;
                  NamesOwnerOf(ChainIn(v.disk, t),
                               ChainIn(Execute(v2, t, b.owner, Settled(b, retry, reason, note)).0.disk, t), v.locks, t))
  {
    hide Accepts;
    hide Execute;
    hide LawfulStep;
    hide GrowsBy;
    hide Heads;
    hide NamesOwnerOf;
    hide OwnAmbiguous;
    var b1 := StateAt(v.disk, t).value.snapshot.body;
    AcceptedState(v.disk, t);
    OwningIsLawful(b1, ChainOf(v.disk.manifest.value, t), t, attempt, note);
    var first := OwnAmbiguous(b1, attempt, note).value;
    StepNamesOwner(v, t, OwnerOf(v.disk, t), first);
    OwningEffect(v, t, attempt, note, {Status.Ambiguous});
    var (v2, out) := Execute(v, t, OwnerOf(v.disk, t), first);
    if !out.Stopped? {
      var b := StateAt(v2.disk, t).value.snapshot.body;
      var step := Settled(b, retry, reason, note);
      SettlingIsLawful(b, ChainOf(v2.disk.manifest.value, t), t, retry, reason, note);
      ClearingNamesNobody(v2, t, b.owner, step, ChainIn(v.disk, t), v.locks);
    }
  }

  lemma ClearingNamesNobody(v: View, t: Target, expected: Option<Token>, step: Step, before: seq<Entry>, l: Locks)
    requires v.disk.manifest.Some? && LawfulStep(ChainOf(v.disk.manifest.value, t), t, step) && step.owner.ClearOwner?
    requires NamesOwnerOf(before, ChainIn(v.disk, t), l, t)
    ensures NamesOwnerOf(before, ChainIn(Execute(v, t, expected, step).0.disk, t), l, t)
  {
    hide Execute;
    hide MayFollow;
    hide Appended;
    hide LawfulStep;
    var d' := Execute(v, t, expected, step).0.disk;
    ExecuteEffect(v, t, expected, step);
    if !SameChains(v.disk, d') {
      AppendedLast(v.disk, d', t, Owned(step.body, step.owner, TokenFor(v, t, expected, step)));
    }
  }

  // ------------------------------------------------------------------- runs

  function HeadOwner(w: World, t: Target): Option<Token> {
    if Chain(w, t) == [] then None else HeadBody(Chain(w, t)).owner
  }

  /** Fenced, and some other store's commit took the target over. */
  ghost predicate Powerless(w: World, s: StoreId, t: Target) {
    Fenced(w, s, t) && HeadOwner(w, t) != Some(LeaseOf(w, s, t).token)
  }

  ghost predicate SameLease(w: World, w': World, s: StoreId, t: Target)
    requires Leased(w, s, t)
  {
    Leased(w', s, t) && LeaseOf(w', s, t) == LeaseOf(w, s, t)
  }

  lemma CallAdvancesLocks(w: World, a: Action)
    requires Sane(w) && a.Call? && a.store in w.stores
    ensures var w' := After(w, a);
            && LocksAdvance(LocksOf(w, a.store), LocksOf(w', a.store))
            && w'.held == Perform(ViewOf(w, a.store, a.quota), a.op, a.note).0.locks.held
            && (forall r :: r in w'.stores <==> r in w.stores)
            && (forall r :: r in w.stores && r != a.store ==> w'.stores[r] == w.stores[r])
  {
    hide Perform;
    hide LocksAdvance;
    PerformAdvances(ViewOf(w, a.store, a.quota), a.op, a.note);
    assert LocksOf(After(w, a), a.store) == Perform(ViewOf(w, a.store, a.quota), a.op, a.note).0.locks;
  }

  /** A fenced lease stays fenced for as long as its store keeps it. */
  lemma FencedStaysFenced(w: World, a: Action, s: StoreId, t: Target)
    requires Sane(w) && Fenced(w, s, t)
    ensures var w' := After(w, a);
            Leased(w', s, t) && LeaseOf(w', s, t).token == LeaseOf(w, s, t).token ==>
              SameLease(w, w', s, t) && Fenced(w', s, t)
  {
    hide Perform;
    if a.Call? && a.store in w.stores {
      CallAdvancesLocks(w, a);
    }
  }

  lemma SaneLocks(w: World)
    requires Sane(w)
    ensures LocksAgree(w) && ChainsRecorded(w.disk)
  {
  }

  /** A commit by any other store leaves the target to an owner other than this one. */
  lemma AnotherCommitDisowns(w: World, a: Action, s: StoreId, t: Target)
    requires Sane(w) && Leased(w, s, t) && a.Call? && a.store != s && a.store in w.stores
    requires Chain(After(w, a), t) != Chain(w, t)
    ensures HeadOwner(After(w, a), t) != Some(LeaseOf(w, s, t).token)
  {
    hide Perform;
    hide Sane;
    SaneLocks(w);
    var v := ViewOf(w, a.store, a.quota);
    var d' := After(w, a).disk;
    assert ChainIn(w.disk, t) == Chain(w, t) && ChainIn(d', t) == Chain(After(w, a), t);
    if w.disk.manifest.None? {
      EmptyBefore(v, a.op, a.note, t);
    } else {
      if a.op.Initialize? || a.op.Publish? || a.op.target != t {
        OtherChainsUntouched(v, a.op, a.note, t);
      } else {
        CommitNamesOwner(v, a.op, a.note);
        assert t in v.locks.leases ==> Leased(w, a.store, t) && LeaseOf(w, a.store, t) == v.locks.leases[t];
      }
    }
  }

  lemma EmptyBefore(v: View, op: Operation, note: string, t: Target)
    requires v.disk.manifest.None?
    ensures ChainIn(Perform(v, op, note).0.disk, t) == []
  {
    if op.Initialize? {
      OneManifestWrite(v, NewManifest(op.runIdentity));
    } else {
      NothingWithoutManifest(v, op, note);
    }
  }

  /** A powerless store commits nothing for the target. */
  lemma PowerlessCommitsNothing(w: World, a: Action, s: StoreId, t: Target)
    requires Sane(w) && Powerless(w, s, t) && a.Call? && a.store == s
    ensures Chain(After(w, a), t) == Chain(w, t)
  {
    hide Perform;
    hide Accepts;
    hide Sane;
    SaneLocks(w);
    var v := ViewOf(w, s, a.quota);
    var d' := After(w, a).disk;
    assert ChainIn(w.disk, t) == Chain(w, t) && ChainIn(d', t) == Chain(After(w, a), t);
    if w.disk.manifest.None? {
      EmptyBefore(v, a.op, a.note, t);
    } else if !Accepts(w.disk) {
      RejectedStaysRejected(v, a.op, a.note);
    } else if a.op.Initialize? || a.op.Publish? || a.op.target != t {
      OtherChainsUntouched(v, a.op, a.note, t);
    } else {
      FencedStoreCommitsOnlyAmbiguity(v, a.op, a.note);
      if StateAt(w.disk, t).Some? {
        AcceptedState(w.disk, t);
      }
    }
  }

  lemma PowerlessStays(w: World, a: Action, s: StoreId, t: Target)
    requires Sane(w) && Powerless(w, s, t)
    ensures var w' := After(w, a);
            Leased(w', s, t) && LeaseOf(w', s, t).token == LeaseOf(w, s, t).token ==>
              SameLease(w, w', s, t) && Powerless(w', s, t)
  {
    hide Sane;
    hide Perform;
    FencedStaysFenced(w, a, s, t);
    if a.Call? && a.store in w.stores {
      if a.store == s {
        PowerlessCommitsNothing(w, a, s, t);
      } else if Chain(After(w, a), t) != Chain(w, t) {
        AnotherCommitDisowns(w, a, s, t);
      }
    }
  }

  /** A lease kept over a stretch of a run: never given back, by token, at any point of it. */
  ghost predicate Keeps(w: World, more: seq<Action>, s: StoreId, t: Target, token: Token) {
    forall n :: 0 <= n <= |more| ==> LeasedWith(Run(w, more[..n]), s, t, token)
  }

  ghost predicate LeasedWith(w: World, s: StoreId, t: Target, token: Token) {
    Leased(w, s, t) && LeaseOf(w, s, t).token == token
  }

  lemma {:induction false} PowerlessForever(first: seq<Action>, more: seq<Action>, s: StoreId, t: Target)
    requires Powerless(Run(START, first), s, t)
    requires Keeps(Run(START, first), more, s, t, LeaseOf(Run(START, first), s, t).token)
    ensures Powerless(Run(START, first + more), s, t)
    ensures LeaseOf(Run(START, first + more), s, t).token == LeaseOf(Run(START, first), s, t).token
    decreases |more|
  {
    hide After;
    hide Powerless;
    var w := Run(START, first);
    if more == [] {
      assert first + more == first;
    } else {
      var almost := more[..|more| - 1];
      assert (first + more)[..|first + more| - 1] == first + almost;
      assert forall n :: 0 <= n <= |almost| ==> almost[..n] == more[..n];
      PowerlessLeased(w, s, t);
      assert Keeps(w, almost, s, t, LeaseOf(w, s, t).token) by {
        forall n | 0 <= n <= |almost|
          ensures LeasedWith(Run(w, almost[..n]), s, t, LeaseOf(w, s, t).token)
        {
          assert LeasedWith(Run(w, more[..n]), s, t, LeaseOf(w, s, t).token);
        }
      }
      PowerlessForever(first, almost, s, t);
      EveryRunIsSane(first + almost);
      RunAppended(START, first, more);
      assert more[..|more|] == more;
      assert LeasedWith(Run(w, more[..|more|]), s, t, LeaseOf(w, s, t).token);
      PowerlessLeased(Run(START, first + almost), s, t);
      PowerlessStays(Run(START, first + almost), more[|more| - 1], s, t);
    }
  }

  lemma PowerlessLeased(w: World, s: StoreId, t: Target)
    requires Powerless(w, s, t)
    ensures Leased(w, s, t)
  {
  }

  /**
    Once another store's commit took a fenced store's target over, nothing that store does for as
    long as it keeps its lease commits a snapshot of the target, whatever else happens in the run.
   */
  lemma FencedStoreNeverCommitsAgain(first: seq<Action>, takeover: Action, more: seq<Action>, last: Action,
                                     s: StoreId, t: Target)
    requires Leased(Run(START, first), s, t)
    requires takeover.Call? && takeover.store != s && takeover.store in Run(START, first).stores
    requires var w1 := Run(START, first + [takeover]);
             && Chain(w1, t) != Chain(Run(START, first), t) && Fenced(w1, s, t)
             && Keeps(w1, more, s, t, LeaseOf(w1, s, t).token)
    requires last.Call? && last.store == s
    ensures Chain(Run(START, first + [takeover] + more + [last]), t) == Chain(Run(START, first + [takeover] + more), t)
  {
    hide After;
    hide Sane;
    hide Keeps;
    hide Chain;
    var w0 := Run(START, first);
    var all := first + [takeover];
    assert all[..|all| - 1] == first;
    var w1 := Run(START, all);
    EveryRunIsSane(first);
    TakenOver(w0, takeover, s, t);
    PowerlessForever(all, more, s, t);
    EveryRunIsSane(all + more);
    assert (all + more + [last])[..|all + more|] == all + more;
    PowerlessCommitsNothing(Run(START, all + more), last, s, t);
  }

  lemma TakenOver(w: World, a: Action, s: StoreId, t: Target)
    requires Sane(w) && Leased(w, s, t) && a.Call? && a.store != s && a.store in w.stores
    requires Chain(After(w, a), t) != Chain(w, t) && Fenced(After(w, a), s, t)
    ensures Powerless(After(w, a), s, t)
  {
    hide Perform;
    hide Sane;
    AnotherCommitDisowns(w, a, s, t);
    CallAdvancesLocks(w, a);
  }
}
