/** What one lock object of a cache key is told and answers (kigumi/calling.py), for one caller or many. */
module Flights {
  import opened Wrappers

  datatype Reply<F> = Returned(text: string) | Raised(fault: F)

  /** The shared part of a `_SingleFlightLock`. */
  datatype Flight<F> = Flight(done: bool, error: Option<F>, result: Option<string>)

  /**
    What may stop a caller before a request: the key's file lock, reading the cache, recording a hit, and what stands
    before the reservation, dry mode or expanding the attachments.
   */
  datatype Hindrance<F> = Hindrance(unlocked: Option<F>, unreadable: Option<F>, unrecorded: Option<F>,
                                    refusal: Option<F>)

  /** What the holder answers without a request: shared error, second cache check, shared result, refusal. */
  function Early<F>(l: Flight<F>, cache: Option<string>, h: Hindrance<F>, noResult: F): Option<Reply<F>> {
    if h.unlocked.Some? then Some(Raised(h.unlocked.value))
    else if l.error.Some? then Some(Raised(l.error.value))
    else if h.unreadable.Some? then Some(Raised(h.unreadable.value))
    else if cache.Some? then Some(if h.unrecorded.Some? then Raised(h.unrecorded.value) else Returned(cache.value))
    else if l.done then Some(if l.result.Some? then Returned(l.result.value) else Raised(noResult))
    else if h.refusal.Some? then Some(Raised(h.refusal.value))
    else None
  }

  /** The holder is stopped after the lock had settled: nobody shares that fault. */
  predicate OwnFault<F>(l: Flight<F>, cache: Option<string>, h: Hindrance<F>) {
    && l.done
    && (h.unlocked.Some? || (l.error.None? && (h.unreadable.Some? || (cache.Some? && h.unrecorded.Some?))))
  }

  /** The holder ended with a reply: a result is shared, and a fault if the lock had not settled. */
  function Ended<F>(l: Flight<F>, reply: Reply<F>): Flight<F> {
    Flight(true,
           if reply.Raised? && !l.done then Some(reply.fault) else l.error,
           if reply.Returned? then Some(reply.text) else l.result)
  }

  /** What a lock that settled answers. */
  function Verdict<F>(l: Flight<F>, noResult: F): Reply<F> {
    if l.error.Some? then Raised(l.error.value)
    else if l.result.Some? then Returned(l.result.value)
    else Raised(noResult)
  }
}
