/**
  The token budget and the locked part of one model call (kigumi/calling.py): estimated tokens are
  reserved before a request, and every reservation is settled exactly once whichever way the call ends.
 */
module Budgets {
  import opened Wrappers
  import opened Flights

  /** What a provider reports; `Total` may be negative. */
  datatype Usage = NotAMapping | NoTotal | NotAnInteger | Total(tokens: int)

  /** `_usage_tokens`: the reported total, if the usage is well formed. */
  function UsageTokens(usage: Usage, bounded: bool): Option<nat> {
    match usage
    case NotAMapping => None
    case NoTotal => if bounded then None else Some(0)
    case NotAnInteger => None
    case Total(tokens) => if tokens < 0 then None else Some(tokens)
  }

  /** The history of a budget: one entry for each reservation, and one without estimate for each `record`. */
  datatype Settlement = Open | Released | Spent(tokens: nat)
  datatype Entry = Entry(estimated: nat, settlement: Settlement)
  type Book = seq<Entry>

  function HeldBy(e: Entry): nat {
    if e.settlement.Open? then e.estimated else 0
  }

  function PaidFor(e: Entry): nat {
    if e.settlement.Spent? then e.settlement.tokens else 0
  }

  function OvershotBy(e: Entry): nat {
    if e.settlement.Spent? && e.settlement.tokens > e.estimated then e.settlement.tokens - e.estimated else 0
  }

  function Held(book: Book): nat {
    if book == [] then 0 else Held(book[..|book| - 1]) + HeldBy(book[|book| - 1])
  }

  function Paid(book: Book): nat {
    if book == [] then 0 else Paid(book[..|book| - 1]) + PaidFor(book[|book| - 1])
  }

  /** By how much actual use went past the estimates. */
  function Overshoot(book: Book): nat {
    if book == [] then 0 else Overshoot(book[..|book| - 1]) + OvershotBy(book[|book| - 1])
  }

  lemma Appended(book: Book, e: Entry)
    ensures Held(book + [e]) == Held(book) + HeldBy(e)
    ensures Paid(book + [e]) == Paid(book) + PaidFor(e)
    ensures Overshoot(book + [e]) == Overshoot(book) + OvershotBy(e)
  {
    assert (book + [e])[..|book|] == book;
  }

  /** Settling one entry moves its estimate out of what is held and its cost into what is paid. */
  lemma {:induction false} Replaced(book: Book, i: nat, e: Entry)
    requires i < |book|
    ensures Held(book[i := e]) == Held(book) - HeldBy(book[i]) + HeldBy(e)
    ensures Paid(book[i := e]) == Paid(book) - PaidFor(book[i]) + PaidFor(e)
    ensures Overshoot(book[i := e]) == Overshoot(book) - OvershotBy(book[i]) + OvershotBy(e)
    decreases |book|
  {
    var n := |book| - 1;
    if i < n {
      Replaced(book[..n], i, e);
      assert book[i := e][..n] == book[..n][i := e];
    } else {
      assert book[i := e][..n] == book[..n];
    }
  }

  lemma {:induction false} HeldAtLeast(book: Book, i: nat)
    requires i < |book|
    ensures Held(book) >= HeldBy(book[i])
    decreases |book|
  {
    if i < |book| - 1 {
      HeldAtLeast(book[..|book| - 1], i);
    }
  }

  /** Settled entries are final, and entries are only added. */
  predicate Continues(book: Book, later: Book) {
    && |book| <= |later|
    && forall i :: 0 <= i < |book| ==>
         later[i].estimated == book[i].estimated && (later[i] == book[i] || book[i].settlement.Open?)
  }

  /** One call after another continues it too. */
  lemma ContinuesFurther(a: Book, b: Book, c: Book)
    requires Continues(a, b) && Continues(b, c)
    ensures Continues(a, c)
  {
  }

  /** Spending never falls from a book to one that continues it. */
  lemma {:induction false} ContinuingPaysMore(book: Book, later: Book)
    requires Continues(book, later)
    ensures Paid(book) <= Paid(later)
    decreases |later|
  {
    if |later| > 0 {
      var n := |later| - 1;
      if |book| == |later| {
        ContinuingPaysMore(book[..n], later[..n]);
      } else {
        ContinuingPaysMore(book, later[..n]);
      }
    }
  }

  /**
    Over any sequence of calls, each of which continues the book it finds as every method of a budget does, spending
    never falls and settled entries stay what they are.
   */
  lemma {:induction false} SpendingNeverFalls(books: seq<Book>, i: nat, j: nat)
    requires forall k :: 0 <= k < |books| - 1 ==> Continues(books[k], books[k + 1])
    requires i <= j < |books|
    ensures Continues(books[i], books[j]) && Paid(books[i]) <= Paid(books[j])
    decreases j
  {
    if i < j {
      SpendingNeverFalls(books, i, j - 1);
      ContinuesFurther(books[i], books[j - 1], books[j]);
    }
    ContinuingPaysMore(books[i], books[j]);
  }

  datatype BudgetFault = NotTokens | NegativeTokens | Inactive | Exceeded | ReservationDenied

  class BudgetPermit {
    const budget: Budget
    const estimated: nat
    ghost const place: nat
    var active: bool

    constructor (budget: Budget, estimated: nat, ghost place: nat)
      ensures this.budget == budget && this.estimated == estimated && this.place == place && active
    {
      this.budget, this.estimated, this.place, active := budget, estimated, place, true;
    }
  }

  class Budget {
    const maxTokens: Option<nat>
    var spent: nat
    var reserved: nat
    ghost var book: Book
    ghost var issued: map<nat, BudgetPermit>

    constructor (maxTokens: Option<nat>)
      ensures this.maxTokens == maxTokens && Valid() && book == [] && issued == map[]
    {
      this.maxTokens := maxTokens;
      spent, reserved, book, issued := 0, 0, [], map[];
    }

    ghost predicate Issued(permit: BudgetPermit)
      reads this
    {
      permit.place in issued && issued[permit.place] == permit
    }

    /** The counters tell the story of the book, and stay under the cap up to the overshoot. */
    ghost predicate Valid()
      reads this, issued.Values
    {
      && reserved == Held(book)
      && spent == Paid(book)
      && (maxTokens.Some? ==> spent + reserved <= maxTokens.value + Overshoot(book))
      && (forall i :: i in issued ==>
            && i < |book| && issued[i].place == i && issued[i].budget == this
            && issued[i].estimated == book[i].estimated
            && (issued[i].active <==> book[i].settlement.Open?))
      && (forall i :: 0 <= i < |book| && book[i].settlement.Open? ==> i in issued)
    }

    predicate OverCap()
      reads this
    {
      maxTokens.Some? && spent > maxTokens.value
    }

    /** `reserve`. */
    method Reserve(estimated: int) returns (permit: BudgetPermit?, fault: Option<BudgetFault>)
      requires Valid()
      modifies this`reserved, this`book, this`issued
      ensures Valid()
      ensures permit == null <==> fault.Some?
      ensures fault == if estimated < 0 then Some(NegativeTokens)
                       else if maxTokens.Some? && estimated > maxTokens.value - spent - old(reserved)
                       then Some(ReservationDenied)
                       else None
      ensures permit == null ==> book == old(book) && issued == old(issued) && reserved == old(reserved)
      ensures permit != null ==>
                && fresh(permit) && permit.active && Issued(permit) && permit.estimated == estimated
                   && permit.place == |old(book)|
                && book == old(book) + [Entry(estimated, Open)]
                && issued == old(issued)[|old(book)| := permit]
      ensures Continues(old(book), book)
    {
      hide Held;
      hide Paid;
      hide Overshoot;
      if estimated < 0 {
        return null, Some(NegativeTokens);
      }
      if maxTokens.Some? {
        var available := maxTokens.value - spent - reserved;
        if estimated > available {
          return null, Some(ReservationDenied);
        }
      }
      Appended(book, Entry(estimated, Open));
      reserved := reserved + estimated;
      permit := new BudgetPermit(this, estimated, |book|);
      fault := None;
      issued := issued[|book| := permit];
      book := book + [Entry(estimated, Open)];
      assert forall i :: 0 <= i < |old(book)| ==> book[i] == old(book)[i];
    }

    /** Close an active permit at some cost. */
    method Settle(permit: BudgetPermit, settlement: Settlement)
      requires Valid() && Issued(permit) && permit.active && !settlement.Open?
      modifies this`spent, this`reserved, this`book, permit
      ensures Valid() && !permit.active && spent == old(spent) + PaidFor(Entry(0, settlement))
      ensures book == old(book)[permit.place := Entry(permit.estimated, settlement)] && Continues(old(book), book)
    {
      hide Held;
      hide Paid;
      hide Overshoot;
      Replaced(book, permit.place, Entry(permit.estimated, settlement));
      HeldAtLeast(book, permit.place);
      permit.active := false;
      reserved := reserved - permit.estimated;
      if settlement.Spent? {
        spent := spent + settlement.tokens;
      }
      book := book[permit.place := Entry(permit.estimated, settlement)];
    }

    /** `commit`: malformed usage is refused before anything changes; a settled permit cannot be committed again. */
    method Commit(permit: BudgetPermit, usage: Usage) returns (fault: Option<BudgetFault>)
      requires Valid() && Issued(permit)
      modifies this`spent, this`reserved, this`book, permit
      ensures Valid()
      ensures var tokens := UsageTokens(usage, maxTokens.Some?);
              if tokens.None? || !old(permit.active) then
                && book == old(book) && permit.active == old(permit.active) && spent == old(spent)
                && fault == Some(if tokens.None? then NotTokens else Inactive)
              else
                && book == old(book)[permit.place := Entry(permit.estimated, Spent(tokens.value))]
                && !permit.active
                && fault == if OverCap() then Some(Exceeded) else None
      ensures Continues(old(book), book)
    {
      var tokens := UsageTokens(usage, maxTokens.Some?);
      if tokens.None? {
        return Some(NotTokens);
      }
      if !permit.active {
        return Some(Inactive);
      }
      Settle(permit, Spent(tokens.value));
      return if OverCap() then Some(Exceeded) else None;
    }

    /** `cancel`: releases an active reservation, and is harmless on a settled one. */
    method Cancel(permit: BudgetPermit)
      requires Valid() && Issued(permit)
      modifies this`spent, this`reserved, this`book, permit
      ensures Valid() && !permit.active && spent == old(spent)
      ensures book == if old(permit.active) then old(book)[permit.place := Entry(permit.estimated, Released)]
              else old(book)
      ensures Continues(old(book), book)
    {
      if permit.active {
        Settle(permit, Released);
      }
    }

    /** `_commit_reserved`: the estimate stands in for a request that was sent but reported nothing. */
    method CommitReserved(permit: BudgetPermit) returns (fault: Option<BudgetFault>)
      requires Valid() && Issued(permit)
      modifies this`spent, this`reserved, this`book, permit
      ensures Valid() && !permit.active
      ensures if !old(permit.active) then book == old(book) && fault == Some(Inactive) && spent == old(spent)
              else
                && book == old(book)[permit.place := Entry(permit.estimated, Spent(permit.estimated))]
                && fault == if OverCap() then Some(Exceeded) else None
      ensures Continues(old(book), book)
    {
      if !permit.active {
        return Some(Inactive);
      }
      Settle(permit, Spent(permit.estimated));
      return if OverCap() then Some(Exceeded) else None;
    }

    /** `record`: spending without a reservation counts as overshoot in full. */
    method Record(usage: Usage) returns (fault: Option<BudgetFault>)
      requires Valid()
      modifies this`spent, this`book
      ensures Valid()
      ensures var tokens := UsageTokens(usage, maxTokens.Some?);
              if tokens.None? then book == old(book) && fault == Some(NotTokens) && spent == old(spent)
              else
                && book == old(book) + [Entry(0, Spent(tokens.value))]
                && fault == if OverCap() then Some(Exceeded) else None
      ensures Continues(old(book), book)
    {
      hide Held;
      hide Paid;
      hide Overshoot;
      var tokens := UsageTokens(usage, maxTokens.Some?);
      if tokens.None? {
        return Some(NotTokens);
      }
      Appended(book, Entry(0, Spent(tokens.value)));
      spent := spent + tokens.value;
      book := book + [Entry(0, Spent(tokens.value))];
      assert forall i :: 0 <= i < |old(book)| ==> book[i] == old(book)[i];
      return if OverCap() then Some(Exceeded) else None;
    }
  }

  // ---------------------------------------------------------------- one call

  datatype Answer = Fails | Responds(truncated: bool, text: string, usage: Usage)

  datatype Persistence = WriteFails | AppendFails | Persisted

  /**
    Everything outside the caller's control: locks, the cache file, attachments, records of calls, slots, the durable
    callback, the transport, the disk.
   */
  datatype Weather = Weather(
    locked: bool, readable: bool, recorded: bool, wired: bool, slot: bool, callback: bool, answer: Answer,
    persistence: Persistence)

  datatype CallFault =
    | KeyBusy | CorruptCache | Unrecorded | DryRun | Unwired | Denied
    | Local | Provider | Incomplete | BadUsage | Unpersisted | OverBudget | NoResult

  class SingleFlightLock {
    var done: bool
    var error: Option<CallFault>
    var result: Option<string>

    constructor ()
      ensures State() == Flight(false, None, None)
    {
      done, error, result := false, None, None;
    }

    function State(): Flight<CallFault>
      reads this
    {
      Flight(done, error, result)
    }
  }

  /** What becomes of a reservation once the request was under way. */
  function SettlementOf(bounded: bool, estimated: nat, w: Weather): Settlement {
    if !w.slot || !w.callback then Released
    else if UsableResponse(bounded, w.answer) then Spent(UsageTokens(w.answer.usage, bounded).value)
    else if bounded then Spent(estimated)
    else Released
  }

  predicate UsableResponse(bounded: bool, answer: Answer) {
    answer.Responds? && !answer.truncated && answer.text != "" && UsageTokens(answer.usage, bounded).Some?
  }

  class LLMCaller {
    const budget: Budget?
    const dry: bool
    var cache: Option<string>
    /** How many requests went to the transport. */
    var sent: nat

    constructor (budget: Budget?, dry: bool)
      ensures this.budget == budget && this.dry == dry && cache == None && sent == 0
    {
      this.budget, this.dry, cache, sent := budget, dry, None, 0;
    }

    /** `_settle_failed_permit`: a request that reached a bounded provider is charged its estimate. */
    method SettleFailedPermit(permit: BudgetPermit?, effectStarted: bool) returns (fault: Option<BudgetFault>)
      requires permit != null ==> budget != null && budget.Valid() && budget.Issued(permit) && permit.active
      modifies if budget != null then {budget as object} else {}, if permit != null then {permit as object} else {}
      ensures permit == null ==> fault.None?
      ensures permit != null ==>
                && budget.Valid() && !permit.active && budget.issued == old(budget.issued)
                && budget.book == old(budget.book)[permit.place :=
                     Entry(permit.estimated,
                           if effectStarted && budget.maxTokens.Some? then Spent(permit.estimated) else Released)]
                && (fault.Some? <==> effectStarted && budget.OverCap())
    {
      fault := None;
      if permit == null {
        return;
      }
      if effectStarted && budget.maxTokens.Some? {
        fault := budget.CommitReserved(permit);
        return;
      }
      budget.Cancel(permit);
    }

    predicate Bounded() {
      budget != null && budget.maxTokens.Some?
    }

    predicate Admits(estimated: nat)
      reads if budget != null then {budget as object} else {}
    {
      Bounded() ==> estimated <= budget.maxTokens.value - budget.spent - budget.reserved
    }

    function Hindered(w: Weather): Hindrance<CallFault> {
      Hindrance(if w.locked then None else Some(KeyBusy),
                if w.readable then None else Some(CorruptCache),
                if w.recorded then None else Some(Unrecorded),
                if dry then Some(DryRun) else if w.wired then None else Some(Unwired))
    }

    /** What is answered without asking the provider. */
    function Answered(flight: SingleFlightLock, w: Weather): Option<Reply<CallFault>>
      reads this, flight
    {
      Early(flight.State(), cache, Hindered(w), NoResult)
    }

    /** The file lock is held, and neither the lock object nor the cache has an answer. */
    predicate Unanswered(flight: SingleFlightLock, w: Weather)
      reads this, flight
    {
      w.locked && w.readable && cache.None? && !flight.done && flight.error.None?
    }

    /** The estimate fits beside what is spent and reserved. */
    predicate Fits(estimated: nat)
      reads if budget != null then {budget as object} else {}
    {
      || budget == null || budget.maxTokens.None?
      || budget.spent + budget.reserved + estimated <= budget.maxTokens.value
    }

    /** The provider's answer is complete and says what it used, as far as the budget needs to know. */
    predicate Usable(answer: Answer) {
      && answer.Responds? && !answer.truncated && answer.text != ""
      && match answer.usage
         case Total(tokens) => tokens >= 0
         case NoTotal => budget == null || budget.maxTokens.None?
         case _ => false
    }

    /** Nobody answered for this key yet, this caller may ask, and the budget lets it. */
    predicate Asks(flight: SingleFlightLock, estimated: nat, w: Weather)
      reads this, flight, if budget != null then {budget as object} else {}
    {
      Answered(flight, w).None? && Admits(estimated)
    }

    /** What an asked request comes to; `over` says whether the budget is over its cap afterwards. */
    function Asked(w: Weather, over: bool): Reply<CallFault> {
      if !w.slot || !w.callback then Raised(Local)
      else if over then Raised(OverBudget)
      else if w.answer.Fails? then Raised(Provider)
      else if w.answer.truncated || w.answer.text == "" then Raised(Incomplete)
      else if UsageTokens(w.answer.usage, Bounded()).None? then Raised(BadUsage)
      else if !w.persistence.Persisted? then Raised(Unpersisted)
      else Returned(w.answer.text)
    }

    /** A request was admitted and is under way: the rest of the locked section. */
    method SendReserved(flight: SingleFlightLock, permit: BudgetPermit?, w: Weather) returns (r: Reply<CallFault>)
      requires permit == null <==> budget == null
      requires permit != null ==> budget.Valid() && budget.Issued(permit) && permit.active
      modifies this`cache, this`sent, flight`result
      modifies if budget != null then {budget as object} else {}, if permit != null then {permit as object} else {}
      ensures permit != null ==>
                && budget.Valid() && !permit.active
                && budget.book
                   == old(budget.book)[permit.place := Entry(permit.estimated,
                                                             SettlementOf(Bounded(), permit.estimated, w))]
      ensures r == Asked(w, Bounded() && budget.OverCap())
      ensures sent == old(sent) + if w.slot && w.callback then 1 else 0
      ensures cache == if w.slot && w.callback && UsableResponse(Bounded(), w.answer) && !w.persistence.WriteFails?
                       then Some(w.answer.text) else old(cache)
      ensures flight.result == if r.Returned? then Some(r.text) else old(flight.result)
    {
      hide Budget.Valid;
      hide Budget.Issued;
      if !w.slot || !w.callback {
        var _ := SettleFailedPermit(permit, false);
        return Raised(Local);
      }
      sent := sent + 1;
      if w.answer.Fails? {
        var fault := SettleFailedPermit(permit, true);
        return Raised(if fault.Some? then OverBudget else Provider);
      }
      if w.answer.truncated || w.answer.text == "" {
        var fault := SettleFailedPermit(permit, true);
        return Raised(if fault.Some? then OverBudget else Incomplete);
      }
      if UsageTokens(w.answer.usage, Bounded()).None? {
        var fault := SettleFailedPermit(permit, true);
        return Raised(if fault.Some? then OverBudget else BadUsage);
      }
      if !w.persistence.WriteFails? {
        cache := Some(w.answer.text);
      }
      if permit != null {
        var fault := budget.Commit(permit, w.answer.usage);
        if fault.Some? {
          return Raised(OverBudget);
        }
      }
      if !w.persistence.Persisted? {
        return Raised(Unpersisted);
      }
      flight.result := Some(w.answer.text);
      return Returned(w.answer.text);
    }

    /**
      The locked section of `call`.  It adds at most one reservation to the budget's book, and
      whichever way it ends that reservation has been settled, once.
     */
    method CallLocked(flight: SingleFlightLock, estimated: nat, w: Weather) returns (r: Reply<CallFault>)
      requires budget != null ==> budget.Valid()
      modifies this`cache, this`sent, flight, if budget != null then {budget as object} else {}
      ensures budget != null ==>
                && budget.Valid()
                && budget.book == old(budget.book) +
                     if old(Asks(flight, estimated, w)) then [Entry(estimated, SettlementOf(Bounded(), estimated, w))]
                       else []
      ensures sent == old(sent) + if old(Asks(flight, estimated, w)) && w.slot && w.callback then 1 else 0
      ensures r == if old(Answered(flight, w)).Some? then old(Answered(flight, w)).value
                   else if old(Admits(estimated)) then Asked(w, Bounded() && budget.OverCap())
                   else Raised(Denied)
      ensures cache == if old(Asks(flight, estimated, w)) && w.slot && w.callback && UsableResponse(Bounded(), w.answer)
                          && !w.persistence.WriteFails?
                       then Some(w.answer.text) else old(cache)
      ensures flight.State() == Ended(old(flight.State()), r)
      // Dry mode, and attachments that cannot be expanded, stop the call before anything is reserved or sent.
      ensures dry || !w.wired ==>
                sent == old(sent) && cache == old(cache) && (budget != null ==> budget.book == old(budget.book))
      ensures old(Unanswered(flight, w)) ==>
                && (r == Raised(DryRun) <==> dry)
                && (r == Raised(Unwired) <==> !dry && !w.wired)
                && (r == Raised(Denied) <==> !dry && w.wired && !old(Fits(estimated)))
      // A request is sent exactly when nothing answers, nothing refuses, the estimate fits and the slot is had.
      ensures var asked := old(Unanswered(flight, w)) && !dry && w.wired && old(Fits(estimated));
              && sent == old(sent) + (if asked && w.slot && w.callback then 1 else 0)
              && (cache != old(cache)
                  <==> asked && w.slot && w.callback && Usable(w.answer) && !w.persistence.WriteFails?)
              && (cache != old(cache) ==> cache == Some(w.answer.text))
              && (budget != null && !asked ==> budget.book == old(budget.book))
              && (budget != null && asked ==>
                    budget.book == old(budget.book)
                      + [Entry(estimated,
                               if !w.slot || !w.callback then Released
                               else if Usable(w.answer) then
                                 Spent(if w.answer.usage.Total? then w.answer.usage.tokens else 0)
                               else if budget.maxTokens.Some? then Spent(estimated)
                               else Released)])
              && (asked && (!w.slot || !w.callback) ==> r == Raised(Local))
              && (asked && w.slot && w.callback && !(budget != null && budget.OverCap()) ==>
                    && (r.Returned? <==> Usable(w.answer) && w.persistence.Persisted?)
                    && (r.Returned? ==> w.answer.Responds? && r.text == w.answer.text)
                    && (r == Raised(Unpersisted) <==> Usable(w.answer) && !w.persistence.Persisted?)
                    && (r == Raised(Provider) <==> w.answer.Fails?)
                    && (r == Raised(Incomplete) <==> w.answer.Responds? && (w.answer.truncated || w.answer.text == "")))
              && (asked && w.slot && w.callback && budget != null && budget.OverCap() ==> r == Raised(OverBudget))
      // What was answered before: a busy file lock, the shared error, an unreadable cache, the cached text, the result.
      ensures !w.locked ==> r == Raised(KeyBusy)
      ensures w.locked && old(flight.error).Some? ==> r == Raised(old(flight.error).value)
      ensures w.locked && old(flight.error).None? ==>
                && (!w.readable ==> r == Raised(CorruptCache))
                && (w.readable && old(cache).Some? ==>
                      r == if w.recorded then Returned(old(cache).value) else Raised(Unrecorded))
                && (w.readable && old(cache).None? && old(flight.done) ==>
                      r == if old(flight.result).Some? then Returned(old(flight.result).value) else Raised(NoResult))
    {
      hide Budget.Valid;
      hide Budget.Issued;
      r := CallBody(flight, estimated, w);
      if r.Raised? && !flight.done {
        flight.error := Some(r.fault);
      }
      flight.done := true;
    }

    method CallBody(flight: SingleFlightLock, estimated: nat, w: Weather) returns (r: Reply<CallFault>)
      requires budget != null ==> budget.Valid()
      modifies this`cache, this`sent, flight`result, if budget != null then {budget as object} else {}
      ensures budget != null ==>
                && budget.Valid()
                && budget.book == old(budget.book) +
                     if old(Asks(flight, estimated, w)) then [Entry(estimated, SettlementOf(Bounded(), estimated, w))]
                       else []
      ensures sent == old(sent) + if old(Asks(flight, estimated, w)) && w.slot && w.callback then 1 else 0
      ensures r == if old(Answered(flight, w)).Some? then old(Answered(flight, w)).value
                   else if old(Admits(estimated)) then Asked(w, Bounded() && budget.OverCap())
                   else Raised(Denied)
      ensures cache == if old(Asks(flight, estimated, w)) && w.slot && w.callback && UsableResponse(Bounded(), w.answer)
                          && !w.persistence.WriteFails?
                       then Some(w.answer.text) else old(cache)
      ensures flight.result == if r.Returned? then Some(r.text) else old(flight.result)
    {
      hide Budget.Valid;
      hide Budget.Issued;
      hide Asked;
      hide SettlementOf;
      hide UsableResponse;
      if !w.locked {
        return Raised(KeyBusy);
      }
      if flight.error.Some? {
        return Raised(flight.error.value);
      }
      if !w.readable {
        return Raised(CorruptCache);
      }
      if cache.Some? {
        if !w.recorded {
          return Raised(Unrecorded);
        }
        flight.result := cache;
        return Returned(cache.value);
      }
      if flight.done {
        return if flight.result.None? then Raised(NoResult) else Returned(flight.result.value);
      }
      if dry {
        return Raised(DryRun);
      }
      if !w.wired {
        return Raised(Unwired);
      }
      var permit: BudgetPermit? := null;
      if budget != null {
        var fault;
        permit, fault := budget.Reserve(estimated);
        if fault.Some? {
          return Raised(Denied);
        }
      }
      r := SendReserved(flight, permit, w);
    }
  }
}
