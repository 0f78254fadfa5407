/**
  Concurrent calls with one cache key (kigumi/calling.py): the table of key locks with their
  reference counts, the shared result or error of a lock, the double-checked cache, and the
  transport.  Each action is one step a thread takes without giving up the processor to a point
  that matters: the table is only touched under its own lock, a lock object only by its holder.
 */
module SingleFlight {
  import opened Wrappers
  import F = Flights

  type ThreadId = nat
  type LockId = nat
  type Fault = string

  type Reply = F.Reply<Fault>

  /** `_SingleFlightLock`; `sends` counts the requests sent while it was held. */
  datatype KeyLock = KeyLock(waiters: nat, holder: Option<ThreadId>, flight: F.Flight<Fault>, sends: nat)

  datatype Phase =
    | Idle
    | Missed
    | Waiting(id: LockId)
    | Holding(id: LockId)
    | Sending(id: LockId)
    | Leaving(id: LockId, reply: Reply, own: bool)
    | Answered(reply: Reply)

  datatype World = World(
    current: Option<LockId>,
    locks: map<LockId, KeyLock>,
    threads: map<ThreadId, Phase>,
    cache: Option<string>,
    unused: LockId,
    sends: nat)

  const START := World(None, map[], map[], None, 0, 0)

  /** What becomes of a request: its text is cached and returned, or it fails, perhaps after its text was cached. */
  datatype Answer = Succeeded(text: string) | Failed(fault: Fault, cached: Option<string>)

  datatype Action =
    | Look(thread: ThreadId, unreadable: Option<Fault>, unrecorded: Option<Fault>)
    | Enter(thread: ThreadId)
    | Acquire(thread: ThreadId)
    | Decide(thread: ThreadId, hindrance: F.Hindrance<Fault>)
    | Respond(thread: ThreadId, answer: Answer)
    | Leave(thread: ThreadId)

  function PhaseOf(w: World, t: ThreadId): Phase {
    if t in w.threads then w.threads[t] else Idle
  }

  function To(w: World, t: ThreadId, phase: Phase): World {
    w.(threads := w.threads[t := phase])
  }

  const FRESH := KeyLock(0, None, F.Flight(false, None, None), 0)
  const NO_RESULT: Fault := "no result"

  /** First cache check, outside any lock. */
  function Looked(w: World, t: ThreadId, unreadable: Option<Fault>, unrecorded: Option<Fault>): World {
    To(w, t, if unreadable.Some? then Answered(F.Raised(unreadable.value))
             else if w.cache.None? then Missed
             else Answered(if unrecorded.Some? then F.Raised(unrecorded.value) else F.Returned(w.cache.value)))
  }

  /** Find or make the lock of the key and count this thread in. */
  function Entered(w: World, t: ThreadId): World {
    var id := if w.current.Some? then w.current.value else w.unused;
    var l := if id in w.locks then w.locks[id] else FRESH;
    To(w.(current := Some(id), locks := w.locks[id := l.(waiters := l.waiters + 1)],
          unused := if w.current.Some? then w.unused else w.unused + 1), t, Waiting(id))
  }

  /** The body of the context ended: the lock settles and is free. */
  function Closed(l: KeyLock, reply: Reply): KeyLock {
    l.(flight := F.Ended(l.flight, reply), holder := None)
  }

  function Exited(w: World, t: ThreadId, id: LockId, l: KeyLock, reply: Reply, own: bool): World {
    To(w.(locks := w.locks[id := Closed(l, reply)]), t, Leaving(id, reply, own))
  }

  /** What the holder does before a request: answer, or send. */
  function Decided(w: World, t: ThreadId, id: LockId, l: KeyLock, h: F.Hindrance<Fault>): World {
    var early := F.Early(l.flight, w.cache, h, NO_RESULT);
    if early.Some? then Exited(w, t, id, l, early.value, F.OwnFault(l.flight, w.cache, h))
    else To(w.(locks := w.locks[id := l.(sends := l.sends + 1)], sends := w.sends + 1), t, Sending(id))
  }

  /** The request came back: cache it if it got that far, share the result unless something failed. */
  function Responded(w: World, t: ThreadId, id: LockId, l: KeyLock, a: Answer): World {
    match a
    case Succeeded(text) => Exited(w.(cache := Some(text)), t, id, l, F.Returned(text), false)
    case Failed(fault, cached) =>
      Exited(if cached.Some? then w.(cache := cached) else w, t, id, l, F.Raised(fault), false)
  }

  /** Count this thread out, and forget the lock once it is done and nobody counts on it. */
  function Left(w: World, t: ThreadId, id: LockId, l: KeyLock, reply: Reply): World
    requires l.waiters > 0
  {
    var l' := l.(waiters := l.waiters - 1);
    To(w.(locks := w.locks[id := l'],
          current := if l'.flight.done && l'.waiters == 0 && w.current == Some(id) then None else w.current),
       t, Answered(reply))
  }

  /** One step of some thread; a step it cannot take now changes nothing. */
  function After(w: World, a: Action): World {
    var t := a.thread;
    var phase := PhaseOf(w, t);
    match a
    case Look(_, unreadable, unrecorded) =>
      if phase.Idle? || phase.Answered? then Looked(w, t, unreadable, unrecorded) else w
    case Enter(_) => if phase.Missed? then Entered(w, t) else w
    case Acquire(_) =>
      if phase.Waiting? && phase.id in w.locks && w.locks[phase.id].holder.None?
      then To(w.(locks := w.locks[phase.id := w.locks[phase.id].(holder := Some(t))]), t, Holding(phase.id)) else w
    case Decide(_, hindrance) =>
      if phase.Holding? && phase.id in w.locks then Decided(w, t, phase.id, w.locks[phase.id], hindrance) else w
    case Respond(_, answer) =>
      if phase.Sending? && phase.id in w.locks then Responded(w, t, phase.id, w.locks[phase.id], answer) else w
    case Leave(_) =>
      if phase.Leaving? && phase.id in w.locks && w.locks[phase.id].waiters > 0
      then Left(w, t, phase.id, w.locks[phase.id], phase.reply) else w
  }

  function Run(actions: seq<Action>): World {
    if actions == [] then START else After(Run(actions[..|actions| - 1]), actions[|actions| - 1])
  }

  // -------------------------------------------------------------- invariants

  predicate Counts(phase: Phase, id: LockId) {
    (phase.Waiting? || phase.Holding? || phase.Sending? || phase.Leaving?) && phase.id == id
  }

  /** The threads counted by the waiters of a lock. */
  function Users(w: World, id: LockId): set<ThreadId> {
    set t | t in w.threads && Counts(w.threads[t], id)
  }

  predicate Inside(phase: Phase) {
    phase.Holding? || phase.Sending?
  }

  /** Every thread on its way through a lock uses the lock in the table, and is counted there. */
  ghost predicate TableHolds(w: World) {
    && (w.current.Some? ==> w.current.value in w.locks && w.current.value < w.unused)
    && (forall id :: id in w.locks ==> id < w.unused && w.locks[id].waiters == |Users(w, id)|)
    && (forall t: ThreadId, id: LockId :: t in w.threads && Counts(w.threads[t], id) ==>
          w.current == Some(id) && id in w.locks)
    && (w.current.Some? && w.locks[w.current.value].waiters == 0 ==> !w.locks[w.current.value].flight.done)
  }

  /** At most the holder is inside a lock. */
  ghost predicate HoldersInside(w: World) {
    && (forall t :: t in w.threads && Inside(w.threads[t]) ==>
          w.threads[t].id in w.locks && w.locks[w.threads[t].id].holder == Some(t))
    && (forall id :: id in w.locks && w.locks[id].holder.Some? ==>
          var h := w.locks[id].holder.value;
          h in w.threads && Inside(w.threads[h]) && w.threads[h].id == id)
  }

  /** One request a lock, only while it is neither done nor the key cached. */
  ghost predicate OneSendEach(w: World) {
    && (forall id :: id in w.locks ==> w.locks[id].sends <= 1)
    && (forall t :: t in w.threads && w.threads[t].Sending? ==>
          w.cache.None? && w.threads[t].id in w.locks && !w.locks[w.threads[t].id].flight.done)
    && (forall id :: id in w.locks && w.locks[id].sends == 1 && !w.locks[id].flight.done ==>
          w.locks[id].holder.Some? && w.locks[id].holder.value in w.threads
          && w.threads[w.locks[id].holder.value] == Sending(id))
  }

  /** A lock that is done holds an error, or the cached result. */
  predicate Settled(f: F.Flight<Fault>, cache: Option<string>) {
    f.error.Some? || (f.result.Some? && cache == f.result)
  }

  /** Everybody leaving a lock leaves with what it holds, but for faults of one's own. */
  ghost predicate Agreement(w: World) {
    && (forall id :: id in w.locks ==>
          if w.locks[id].flight.done then Settled(w.locks[id].flight, w.cache) else w.locks[id].flight.error.None?)
    && (forall t :: t in w.threads && w.threads[t].Leaving? ==>
          && w.threads[t].id in w.locks && w.locks[w.threads[t].id].flight.done
          && (!w.threads[t].own ==> w.threads[t].reply == F.Verdict(w.locks[w.threads[t].id].flight, NO_RESULT)))
  }

  ghost predicate Sane(w: World) {
    TableHolds(w) && HoldersInside(w) && OneSendEach(w) && Agreement(w)
  }

  lemma UsersMoved(w: World, w': World, t: ThreadId, phase: Phase, id: LockId)
    requires w'.threads == w.threads[t := phase]
    ensures t in Users(w, id) <==> Counts(PhaseOf(w, t), id)
    ensures Users(w', id) == (Users(w, id) - {t}) + if Counts(phase, id) then {t} else {}
  {
  }

  /** Only the thread that moved is counted differently. */
  lemma UsersCount(w: World, w': World, t: ThreadId, phase: Phase, id: LockId)
    requires w'.threads == w.threads[t := phase]
    ensures |Users(w', id)|
            == |Users(w, id)| - (if Counts(PhaseOf(w, t), id) then 1 else 0) + (if Counts(phase, id) then 1 else 0)
  {
    hide Users;
    hide Counts;
    UsersMoved(w, w', t, phase, id);
    var rest := Users(w, id) - {t};
    assert |rest| == |Users(w, id)| - if t in Users(w, id) then 1 else 0;
    assert |rest + {t}| == |rest| + 1 && rest + {} == rest;
  }

  /** Moving a thread between phases of one lock keeps everybody counted. */
  lemma SameUsers(w: World, w': World, t: ThreadId, phase: Phase)
    requires w'.threads == w.threads[t := phase]
    requires forall id: LockId :: Counts(phase, id) <==> Counts(PhaseOf(w, t), id)
    ensures forall id: LockId :: |Users(w', id)| == |Users(w, id)|
  {
    forall id: LockId
      ensures |Users(w', id)| == |Users(w, id)|
    {
      UsersCount(w, w', t, phase, id);
    }
  }

  lemma SomebodyThere(w: World, t: ThreadId, id: LockId)
    requires Counts(PhaseOf(w, t), id)
    ensures |Users(w, id)| > 0
  {
    assert t in Users(w, id);
  }

  lemma NobodyThere(w: World, id: LockId)
    requires TableHolds(w) && w.current != Some(id)
    ensures |Users(w, id)| == 0
  {
    assert forall t :: t in w.threads ==> !Counts(w.threads[t], id);
    assert Users(w, id) == {};
  }

  lemma LookKeepsTable(w: World, t: ThreadId, unreadable: Option<Fault>, unrecorded: Option<Fault>)
    requires TableHolds(w) && (PhaseOf(w, t).Idle? || PhaseOf(w, t).Answered?)
    ensures TableHolds(Looked(w, t, unreadable, unrecorded))
  {
    var w' := Looked(w, t, unreadable, unrecorded);
    SameUsers(w, w', t, w'.threads[t]);
    hide Users;
  }

  lemma LookKeepsRest(w: World, t: ThreadId, unreadable: Option<Fault>, unrecorded: Option<Fault>)
    requires HoldersInside(w) && OneSendEach(w) && (PhaseOf(w, t).Idle? || PhaseOf(w, t).Answered?)
    ensures var w' := Looked(w, t, unreadable, unrecorded);
            HoldersInside(w') && OneSendEach(w')
  {
  }

  lemma LookKeepsAgreement(w: World, t: ThreadId, unreadable: Option<Fault>, unrecorded: Option<Fault>)
    requires Agreement(w) && (PhaseOf(w, t).Idle? || PhaseOf(w, t).Answered?)
    ensures Agreement(Looked(w, t, unreadable, unrecorded))
  {
    hide Settled;
    hide F.Verdict;
  }

  lemma LookIsSane(w: World, t: ThreadId, unreadable: Option<Fault>, unrecorded: Option<Fault>)
    requires Sane(w) && (PhaseOf(w, t).Idle? || PhaseOf(w, t).Answered?)
    ensures Sane(Looked(w, t, unreadable, unrecorded))
  {
    hide TableHolds;
    hide HoldersInside;
    hide OneSendEach;
    hide Agreement;
    hide Looked;
    LookKeepsTable(w, t, unreadable, unrecorded);
    LookKeepsRest(w, t, unreadable, unrecorded);
    LookKeepsAgreement(w, t, unreadable, unrecorded);
  }

  lemma EnterKeepsTable(w: World, t: ThreadId)
    requires TableHolds(w) && PhaseOf(w, t).Missed?
    ensures TableHolds(Entered(w, t))
  {
    hide Users;
    var w' := Entered(w, t);
    var id := w'.current.value;
    forall k | k in w'.locks
      ensures w'.locks[k].waiters == |Users(w', k)|
    {
      UsersCount(w, w', t, Waiting(id), k);
      if k !in w.locks {
        NobodyThere(w, k);
      }
    }
  }

  lemma EnterKeepsRest(w: World, t: ThreadId)
    requires HoldersInside(w) && OneSendEach(w) && PhaseOf(w, t).Missed?
    requires w.unused !in w.locks && (w.current.Some? ==> w.current.value in w.locks)
    ensures HoldersInside(Entered(w, t)) && OneSendEach(Entered(w, t))
  {
  }

  lemma EnterKeepsAgreement(w: World, t: ThreadId)
    requires Agreement(w) && PhaseOf(w, t).Missed?
    requires w.unused !in w.locks && (w.current.Some? ==> w.current.value in w.locks)
    ensures Agreement(Entered(w, t))
  {
  }

  lemma EnterIsSane(w: World, t: ThreadId)
    requires Sane(w) && PhaseOf(w, t).Missed?
    ensures Sane(Entered(w, t))
  {
    hide HoldersInside;
    hide OneSendEach;
    hide Agreement;
    EnterKeepsTable(w, t);
    EnterKeepsRest(w, t);
    EnterKeepsAgreement(w, t);
  }

  predicate CanAcquire(w: World, t: ThreadId) {
    PhaseOf(w, t).Waiting? && PhaseOf(w, t).id in w.locks && w.locks[PhaseOf(w, t).id].holder.None?
  }

  lemma AcquireKeepsTable(w: World, t: ThreadId)
    requires TableHolds(w) && CanAcquire(w, t)
    ensures TableHolds(After(w, Acquire(t)))
  {
    SameUsers(w, After(w, Acquire(t)), t, Holding(PhaseOf(w, t).id));
    hide Users;
  }

  lemma AcquireKeepsHolders(w: World, t: ThreadId)
    requires HoldersInside(w) && OneSendEach(w) && CanAcquire(w, t)
    ensures HoldersInside(After(w, Acquire(t))) && OneSendEach(After(w, Acquire(t)))
  {
    var w' := After(w, Acquire(t));
    assert HoldersInside(w');
    assert OneSendEach(w');
  }

  lemma AcquireKeepsAgreement(w: World, t: ThreadId)
    requires Agreement(w) && CanAcquire(w, t)
    ensures Agreement(After(w, Acquire(t)))
  {
    hide Settled;
    hide F.Verdict;
  }

  lemma AcquireIsSane(w: World, t: ThreadId)
    requires Sane(w) && CanAcquire(w, t)
    ensures Sane(After(w, Acquire(t)))
  {
    hide TableHolds;
    hide HoldersInside;
    hide OneSendEach;
    hide Agreement;
    hide After;
    AcquireKeepsTable(w, t);
    AcquireKeepsHolders(w, t);
    AcquireKeepsAgreement(w, t);
  }

  /** A holder leaves with what its lock says once it is done, or with a fault of its own that changes nothing. */
  predicate Agreed(w: World, f: F.Flight<Fault>, reply: Reply, own: bool) {
    && (f.done || f.error.None?)
    && var f' := F.Ended(f, reply);
       && Settled(f', w.cache)
       && (own || reply == F.Verdict(f', NO_RESULT))
       && (f.done ==> F.Verdict(f', NO_RESULT) == F.Verdict(f, NO_RESULT))
  }

  lemma ExitKeepsAgreement(w: World, w0: World, t: ThreadId, id: LockId, reply: Reply, own: bool)
    requires Agreement(w0) && HoldersInside(w0) && OneSendEach(w0)
    requires PhaseOf(w0, t) in {Holding(id), Sending(id)} && id in w0.locks
    requires w == w0.(cache := w.cache) && Agreed(w, w0.locks[id].flight, reply, own)
    requires w.cache == w0.cache || (PhaseOf(w0, t).Sending? && w0.cache.None?)
    ensures Agreement(Exited(w, t, id, w0.locks[id], reply, own))
  {
    hide F.Ended;
    hide F.Verdict;
    var w' := Exited(w, t, id, w0.locks[id], reply, own);
    EndedIsDone(w0.locks[id].flight, reply);
    assert w'.locks[id].flight == F.Ended(w0.locks[id].flight, reply) && w'.locks[id].flight.done;
    forall k | k in w'.locks && k != id && w'.locks[k].flight.done
      ensures Settled(w'.locks[k].flight, w'.cache)
    {
      assert w'.locks[k] == w0.locks[k];
    }
  }

  lemma EndedIsDone(f: F.Flight<Fault>, reply: Reply)
    ensures F.Ended(f, reply).done
  {
  }

  /** Mutual exclusion: whoever is inside is alone inside. */
  lemma AloneInside(w: World, t: ThreadId, u: ThreadId)
    requires TableHolds(w) && HoldersInside(w) && Inside(PhaseOf(w, t)) && Inside(PhaseOf(w, u))
    ensures t == u
  {
    assert Counts(w.threads[t], w.threads[t].id);
    assert Counts(w.threads[u], w.threads[u].id);
  }

  lemma ExitKeepsTable(w: World, w0: World, t: ThreadId, id: LockId, reply: Reply, own: bool)
    requires TableHolds(w0) && PhaseOf(w0, t) in {Holding(id), Sending(id)} && id in w0.locks
             && w == w0.(cache := w.cache)
    ensures TableHolds(Exited(w, t, id, w0.locks[id], reply, own))
  {
    var w' := Exited(w, t, id, w0.locks[id], reply, own);
    SameUsers(w0, w', t, Leaving(id, reply, own));
    SomebodyThere(w0, t, id);
    hide Users;
  }

  lemma ExitKeepsRest(w: World, w0: World, t: ThreadId, id: LockId, reply: Reply, own: bool)
    requires HoldersInside(w0) && OneSendEach(w0) && PhaseOf(w0, t) in {Holding(id), Sending(id)} && id in w0.locks
    requires w == w0.(cache := w.cache)
    requires forall u :: u in w0.threads && Inside(w0.threads[u]) ==> u == t
    ensures HoldersInside(Exited(w, t, id, w0.locks[id], reply, own))
            && OneSendEach(Exited(w, t, id, w0.locks[id], reply, own))
  {
    var w' := Exited(w, t, id, w0.locks[id], reply, own);
    assert HoldersInside(w');
  }

  lemma ExitIsSane(w: World, w0: World, t: ThreadId, id: LockId, reply: Reply, own: bool)
    requires Sane(w0) && PhaseOf(w0, t) in {Holding(id), Sending(id)} && id in w0.locks
    requires w == w0.(cache := w.cache) && Agreed(w, w0.locks[id].flight, reply, own)
    requires w.cache == w0.cache || (PhaseOf(w0, t).Sending? && w0.cache.None?)
    ensures Sane(Exited(w, t, id, w0.locks[id], reply, own))
  {
    hide Agreement;
    hide Agreed;
    hide TableHolds;
    hide HoldersInside;
    hide OneSendEach;
    hide Exited;
    forall u | u in w0.threads && Inside(w0.threads[u])
      ensures u == t
    {
      AloneInside(w0, t, u);
    }
    ExitKeepsAgreement(w, w0, t, id, reply, own);
    ExitKeepsTable(w, w0, t, id, reply, own);
    ExitKeepsRest(w, w0, t, id, reply, own);
  }

  /** What a sane world says about the lock a thread holds. */
  lemma HeldLock(w: World, t: ThreadId)
    requires Sane(w) && (PhaseOf(w, t).Holding? || PhaseOf(w, t).Sending?) && PhaseOf(w, t).id in w.locks
    ensures var f := w.locks[PhaseOf(w, t).id].flight;
            && (if f.done then Settled(f, w.cache) else f.error.None?)
            && (PhaseOf(w, t).Sending? ==> !f.done && w.cache.None?)
  {
  }

  lemma DecideIsSane(w: World, t: ThreadId, h: F.Hindrance<Fault>)
    requires Sane(w) && PhaseOf(w, t).Holding? && PhaseOf(w, t).id in w.locks
    ensures Sane(Decided(w, t, PhaseOf(w, t).id, w.locks[PhaseOf(w, t).id], h))
  {
    HeldLock(w, t);
    hide Sane;
    var id := PhaseOf(w, t).id;
    var f := w.locks[id].flight;
    var early := F.Early(f, w.cache, h, NO_RESULT);
    if early.Some? {
      ExitIsSane(w, w, t, id, early.value, F.OwnFault(f, w.cache, h));
    } else {
      SendIsSane(w, t, h);
    }
  }

  predicate Sends(w: World, t: ThreadId, h: F.Hindrance<Fault>) {
    && PhaseOf(w, t).Holding? && PhaseOf(w, t).id in w.locks
    && F.Early(w.locks[PhaseOf(w, t).id].flight, w.cache, h, NO_RESULT).None?
  }

  lemma SendKeepsTable(w: World, t: ThreadId, h: F.Hindrance<Fault>)
    requires TableHolds(w) && Sends(w, t, h)
    ensures TableHolds(Decided(w, t, PhaseOf(w, t).id, w.locks[PhaseOf(w, t).id], h))
  {
    var id := PhaseOf(w, t).id;
    SameUsers(w, Decided(w, t, id, w.locks[id], h), t, Sending(id));
    hide Users;
  }

  lemma SendKeepsRest(w: World, t: ThreadId, h: F.Hindrance<Fault>)
    requires HoldersInside(w) && OneSendEach(w) && Sends(w, t, h)
    ensures var w' := Decided(w, t, PhaseOf(w, t).id, w.locks[PhaseOf(w, t).id], h);
            HoldersInside(w') && OneSendEach(w')
  {
    var id := PhaseOf(w, t).id;
    var w' := Decided(w, t, id, w.locks[id], h);
    assert w.locks[id].holder == Some(t) && w'.locks.Keys == w.locks.Keys;
    assert HoldersInside(w');
  }

  lemma SendKeepsAgreement(w: World, t: ThreadId, h: F.Hindrance<Fault>)
    requires Agreement(w) && Sends(w, t, h)
    ensures Agreement(Decided(w, t, PhaseOf(w, t).id, w.locks[PhaseOf(w, t).id], h))
  {
    hide Settled;
    hide F.Verdict;
  }

  lemma SendIsSane(w: World, t: ThreadId, h: F.Hindrance<Fault>)
    requires Sane(w) && Sends(w, t, h)
    ensures Sane(Decided(w, t, PhaseOf(w, t).id, w.locks[PhaseOf(w, t).id], h))
  {
    hide TableHolds;
    hide HoldersInside;
    hide OneSendEach;
    hide Agreement;
    hide Decided;
    SendKeepsTable(w, t, h);
    SendKeepsRest(w, t, h);
    SendKeepsAgreement(w, t, h);
  }

  lemma RespondIsSane(w: World, t: ThreadId, a: Answer)
    requires Sane(w) && PhaseOf(w, t).Sending? && PhaseOf(w, t).id in w.locks
    ensures Sane(Responded(w, t, PhaseOf(w, t).id, w.locks[PhaseOf(w, t).id], a))
  {
    HeldLock(w, t);
    hide Sane;
    var id := PhaseOf(w, t).id;
    match a
    case Succeeded(text) => ExitIsSane(w.(cache := Some(text)), w, t, id, F.Returned(text), false);
    case Failed(fault, cached) =>
      ExitIsSane(if cached.Some? then w.(cache := cached) else w, w, t, id, F.Raised(fault), false);
  }

  lemma LeaveKeepsTable(w: World, t: ThreadId)
    requires TableHolds(w) && PhaseOf(w, t).Leaving? && PhaseOf(w, t).id in w.locks
             && w.locks[PhaseOf(w, t).id].waiters > 0
    ensures TableHolds(After(w, Leave(t)))
  {
    var w' := After(w, Leave(t));
    forall k | k in w'.locks
      ensures w'.locks[k].waiters == |Users(w', k)|
    {
      UsersCount(w, w', t, w'.threads[t], k);
    }
    forall u: ThreadId, k: LockId | u in w'.threads && Counts(w'.threads[u], k)
      ensures w'.current == Some(k) && k in w'.locks
    {
      assert Counts(w.threads[u], k);
      assert u in Users(w', k);
    }
  }

  lemma LeaveKeepsRest(w: World, t: ThreadId)
    requires HoldersInside(w) && OneSendEach(w)
    requires PhaseOf(w, t).Leaving? && PhaseOf(w, t).id in w.locks && w.locks[PhaseOf(w, t).id].waiters > 0
    ensures HoldersInside(After(w, Leave(t))) && OneSendEach(After(w, Leave(t)))
  {
  }

  lemma LeaveKeepsAgreement(w: World, t: ThreadId)
    requires Agreement(w)
    requires PhaseOf(w, t).Leaving? && PhaseOf(w, t).id in w.locks && w.locks[PhaseOf(w, t).id].waiters > 0
    ensures Agreement(After(w, Leave(t)))
  {
  }

  lemma LeaveIsSane(w: World, t: ThreadId)
    requires Sane(w) && PhaseOf(w, t).Leaving? && PhaseOf(w, t).id in w.locks && w.locks[PhaseOf(w, t).id].waiters > 0
    ensures Sane(After(w, Leave(t)))
  {
    hide Users;
    LeaveKeepsTable(w, t);
    LeaveKeepsRest(w, t);
    LeaveKeepsAgreement(w, t);
  }

  lemma StepIsSane(w: World, a: Action)
    requires Sane(w)
    ensures Sane(After(w, a))
  {
    hide Sane;
    var t := a.thread;
    var phase := PhaseOf(w, t);
    match a
    case Look(_, unreadable, unrecorded) =>
      if phase.Idle? || phase.Answered? { LookIsSane(w, t, unreadable, unrecorded); }
    case Enter(_) => if phase.Missed? { EnterIsSane(w, t); }
    case Acquire(_) =>
      if phase.Waiting? && phase.id in w.locks && w.locks[phase.id].holder.None? { AcquireIsSane(w, t); }
    case Decide(_, hindrance) => if phase.Holding? && phase.id in w.locks { DecideIsSane(w, t, hindrance); }
    case Respond(_, answer) => if phase.Sending? && phase.id in w.locks { RespondIsSane(w, t, answer); }
    case Leave(_) => if phase.Leaving? && phase.id in w.locks && w.locks[phase.id].waiters > 0 { LeaveIsSane(w, t); }
  }

  lemma {:induction false} EveryRunIsSane(actions: seq<Action>)
    ensures Sane(Run(actions))
    decreases |actions|
  {
    hide After;
    if actions != [] {
      EveryRunIsSane(actions[..|actions| - 1]);
      StepIsSane(Run(actions[..|actions| - 1]), actions[|actions| - 1]);
    }
  }

  // ----------------------------------------------------------- main results

  /** Everybody waiting for, inside or leaving a lock uses the one lock in the table. */
  lemma EverybodySharesTheLock(actions: seq<Action>, t: ThreadId, i: LockId, u: ThreadId, j: LockId)
    requires Counts(PhaseOf(Run(actions), t), i) && Counts(PhaseOf(Run(actions), u), j)
    ensures i == j && Run(actions).current == Some(i)
  {
    hide Run;
    EveryRunIsSane(actions);
    var w := Run(actions);
    assert t in w.threads && u in w.threads;
    assert Counts(w.threads[t], i);
    assert w.current == Some(i);
    assert Counts(w.threads[u], j);
    assert w.current == Some(j);
  }

  /** At most one request is under way at any time, no lock ever sees a second one, and it starts uncached. */
  lemma OneRequestAtATime(actions: seq<Action>, a: Action, t: ThreadId, u: ThreadId, id: LockId)
    ensures var w := Run(actions);
            && (PhaseOf(w, t).Sending? && PhaseOf(w, u).Sending? ==> t == u)
            && (id in w.locks ==> w.locks[id].sends <= 1)
            && (After(w, a).sends != w.sends ==> w.cache.None? && After(w, a).sends == w.sends + 1)
  {
    hide Run;
    EveryRunIsSane(actions);
    var w := Run(actions);
    if PhaseOf(w, t).Sending? && PhaseOf(w, u).Sending? {
      assert Counts(w.threads[t], w.threads[t].id) && Counts(w.threads[u], w.threads[u].id);
    }
  }

  lemma CachedStep(w: World, a: Action)
    requires Sane(w) && w.cache.Some?
    ensures After(w, a).cache == w.cache && After(w, a).sends == w.sends
  {
  }

  /** After one cached success nothing is ever sent for the key again, and the cached text stays. */
  lemma {:induction false} NothingIsSentAfterSuccess(first: seq<Action>, more: seq<Action>)
    requires Run(first).cache.Some?
    ensures Run(first + more).sends == Run(first).sends && Run(first + more).cache == Run(first).cache
    decreases |more|
  {
    hide After;
    if more == [] {
      assert first + more == first;
    } else {
      var almost := more[..|more| - 1];
      assert (first + more)[..|first + more| - 1] == first + almost;
      NothingIsSentAfterSuccess(first, almost);
      EveryRunIsSane(first + almost);
      CachedStep(Run(first + almost), more[|more| - 1]);
    }
  }

  /**
    All callers that shared a lock leave with the same answer, its error or its result and never "no result", but
    for those that were stopped themselves after the lock had settled.
   */
  lemma SharedAnswer(actions: seq<Action>, t: ThreadId, u: ThreadId)
    requires PhaseOf(Run(actions), t).Leaving? && PhaseOf(Run(actions), u).Leaving?
    requires !PhaseOf(Run(actions), t).own && !PhaseOf(Run(actions), u).own
    ensures PhaseOf(Run(actions), t).reply == PhaseOf(Run(actions), u).reply
    ensures PhaseOf(Run(actions), t).id in Run(actions).locks
    ensures var f := Run(actions).locks[PhaseOf(Run(actions), t).id].flight;
            && (f.error.Some? || f.result.Some?)
            && PhaseOf(Run(actions), t).reply == if f.error.Some? then F.Raised(f.error.value)
               else F.Returned(f.result.value)
  {
    hide Run;
    EveryRunIsSane(actions);
    var w := Run(actions);
    assert Counts(w.threads[t], w.threads[t].id) && Counts(w.threads[u], w.threads[u].id);
  }

  /**
    A caller is stopped itself only where its lock had settled and the file lock, reading the
    cache or recording failed.
   */
  lemma OwnFaultsAreHindrances(w: World, a: Action, t: ThreadId)
    requires !(PhaseOf(w, t).Leaving? && PhaseOf(w, t).own)
    ensures var phase := PhaseOf(After(w, a), t);
            phase.Leaving? && phase.own ==>
              && a.Decide? && a.thread == t && phase.id in w.locks && w.locks[phase.id].flight.done
              && ((a.hindrance.unlocked.Some? && phase.reply == F.Raised(a.hindrance.unlocked.value))
                  || (a.hindrance.unreadable.Some? && phase.reply == F.Raised(a.hindrance.unreadable.value))
                  || (w.cache.Some? && a.hindrance.unrecorded.Some?
                      && phase.reply == F.Raised(a.hindrance.unrecorded.value)))
              && After(w, a).locks[phase.id].flight == w.locks[phase.id].flight
  {
  }

  /**
    A request starts exactly when a holder with its file lock held and nothing to refuse it finds the lock unsettled,
    without an error, and the cache readable and empty.
   */
  lemma RequestStartsExactly(w: World, a: Action)
    ensures After(w, a).sends != w.sends ==>
              && After(w, a).sends == w.sends + 1 && PhaseOf(w, a.thread).Holding?
              && PhaseOf(w, a.thread).id in w.locks && PhaseOf(w, a.thread).id in After(w, a).locks
              && After(w, a).locks[PhaseOf(w, a.thread).id].sends == w.locks[PhaseOf(w, a.thread).id].sends + 1
    ensures After(w, a).sends == w.sends + 1
            <==> && a.Decide? && PhaseOf(w, a.thread).Holding? && PhaseOf(w, a.thread).id in w.locks
                 && w.cache.None? && !w.locks[PhaseOf(w, a.thread).id].flight.done
                 && w.locks[PhaseOf(w, a.thread).id].flight.error.None?
                 && a.hindrance.unlocked.None? && a.hindrance.unreadable.None? && a.hindrance.refusal.None?
  {
  }

  function AnswerOf(phase: Phase): Option<Reply> {
    if phase.Leaving? || phase.Answered? then Some(phase.reply) else None
  }

  /** Whoever was answered with a text was answered with the cached one. */
  ghost predicate TextsAreCached(w: World) {
    forall t :: t in w.threads && AnswerOf(w.threads[t]).Some? && AnswerOf(w.threads[t]).value.Returned? ==>
      w.cache == Some(AnswerOf(w.threads[t]).value.text)
  }

  lemma StepKeepsTexts(w: World, a: Action)
    requires Sane(w) && TextsAreCached(w)
    ensures TextsAreCached(After(w, a))
  {
    hide Users;
    hide HoldersInside;
    hide TableHolds;
    var t := a.thread;
    if (a.Decide? || a.Respond?) && (PhaseOf(w, t).Holding? || PhaseOf(w, t).Sending?) && PhaseOf(w, t).id in w.locks {
      HeldLock(w, t);
    }
    if w.cache.Some? {
      CachedStep(w, a);
    }
  }

  /** In every interleaving, every text a caller is given is the text in the cache. */
  lemma {:induction false} EveryTextIsCached(actions: seq<Action>)
    ensures TextsAreCached(Run(actions))
    decreases |actions|
  {
    hide After;
    hide Sane;
    hide TextsAreCached;
    if actions == [] {
      assert TextsAreCached(START) by { NobodyAnswered(); }
    } else {
      EveryTextIsCached(actions[..|actions| - 1]);
      EveryRunIsSane(actions[..|actions| - 1]);
      StepKeepsTexts(Run(actions[..|actions| - 1]), actions[|actions| - 1]);
    }
  }

  lemma NobodyAnswered()
    ensures TextsAreCached(START)
  {
  }

  /** The outcome of the one request is everybody's: its text is cached, its fault is shared by the lock. */
  lemma RequestSettles(actions: seq<Action>, t: ThreadId, answer: Answer)
    requires PhaseOf(Run(actions), t).Sending?
    ensures var w := Run(actions);
            var w' := After(w, Respond(t, answer));
            var id := PhaseOf(w, t).id;
            && id in w'.locks && w'.locks[id].flight.done && w'.locks[id].holder.None?
            && PhaseOf(w', t).Leaving? && !PhaseOf(w', t).own
            && match answer
               case Succeeded(text) => w'.cache == Some(text) && PhaseOf(w', t).reply == F.Returned(text)
               case Failed(fault, cached) =>
                 && w'.cache == cached && PhaseOf(w', t).reply == F.Raised(fault)
                 && w'.locks[id].flight.error == Some(fault)
  {
    hide Run;
    EveryRunIsSane(actions);
  }

  predicate Ready(phase: Phase) {
    phase.Idle? || phase.Answered?
  }

  /** The first look answers from a readable cache, fails on an unreadable one, and only an empty cache leads on. */
  lemma FirstLook(w: World, t: ThreadId, unreadable: Option<Fault>, unrecorded: Option<Fault>)
    requires Ready(PhaseOf(w, t))
    ensures var phase := PhaseOf(After(w, Look(t, unreadable, unrecorded)), t);
            && (unreadable.Some? ==> phase == Answered(F.Raised(unreadable.value)))
            && (unreadable.None? && w.cache.Some? ==>
                  phase == Answered(if unrecorded.Some? then F.Raised(unrecorded.value) else F.Returned(w.cache.value)))
            && (unreadable.None? && w.cache.None? ==> phase.Missed?)
  {
  }

  /** Who missed waits for the lock in the table, or a fresh one; a free lock is had; who leaves keeps the answer. */
  lemma WayThroughTheLock(actions: seq<Action>, t: ThreadId)
    ensures var w := Run(actions);
            var phase := PhaseOf(w, t);
            && (phase.Missed? ==>
                  var w' := After(w, Enter(t));
                  && PhaseOf(w', t).Waiting? && w'.current == Some(PhaseOf(w', t).id)
                  && (w.current.Some? ==> w'.current == w.current)
                  && (w.current.None? ==>
                        && w'.current.value !in w.locks
                        && w'.locks[w'.current.value].flight == F.Flight(false, None, None)))
            && (phase.Waiting? ==>
                  && phase.id in w.locks
                  && (w.locks[phase.id].holder.None? ==>
                        PhaseOf(After(w, Acquire(t)), t) == Holding(phase.id)
                        && After(w, Acquire(t)).locks[phase.id].holder == Some(t)))
            && (phase.Leaving? ==> PhaseOf(After(w, Leave(t)), t) == Answered(phase.reply))
  {
    hide Run;
    EveryRunIsSane(actions);
    var w := Run(actions);
    var phase := PhaseOf(w, t);
    if phase.Waiting? || phase.Leaving? {
      assert Counts(w.threads[t], phase.id);
      SomebodyThere(w, t, phase.id);
    }
  }
}
