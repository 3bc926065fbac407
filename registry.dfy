/**
 * The background page's message handler and its `activeRequests` set of
 * abort controllers: a `checkUrl` message registers controllers while its
 * check is in flight, `cancelScan` aborts and forgets every registered one.
 */
module Registry {
  import opened Wrappers
  import opened Verdicts

  /** An AbortController, identified by the order in which it was created. */
  type Handle = nat

  /**
   * The two controllers one `checkUrl` message registers: `outer` by the
   * message handler, `inner` by `checkUrl` itself (linked so that aborting
   * `outer` aborts `inner`).
   */
  datatype Request = Request(outer: Handle, inner: Handle)

  /** How the `checkUrlOnce` promise ended: a verdict, or an error with its name and message. */
  datatype CheckOutcome = Returned(verdict: Verdict) | Threw(name: string, message: string)

  /** `checkUrl`: passes the verdict through and rethrows an AbortError as "Request cancelled". */
  function CheckUrl(o: CheckOutcome): (r: Result<Verdict, string>)
    ensures o.Returned? <==> r.Success?
    ensures o.Returned? ==> r.value == o.verdict
    ensures o.Threw? && o.name == "AbortError" ==> r == Failure("Request cancelled")
    ensures o.Threw? && o.name != "AbortError" ==> r == Failure(o.message)
  {
    match o
    case Returned(v) => Success(v)
    case Threw(name, message) => Failure(if name == "AbortError" then "Request cancelled" else message)
  }

  /** What the message handler sends back: the verdict, or an invalid verdict carrying the error message. */
  function Response(o: CheckOutcome): (r: Verdict)
    ensures o.Returned? ==> r == o.verdict
    ensures o.Threw? ==> !r.isValid && r.reason == Some(CheckUrl(o).error)
  {
    match CheckUrl(o)
    case Success(v) => v
    case Failure(m) => Verdict(false, Some(m), None, None)
  }

  /**
   * The set after a check settles, as the source is written: the message
   * handler deletes `outer` on both paths, but `checkUrl` deletes `inner`
   * only when `checkUrlOnce` returned; its catch block leaves it registered.
   */
  function SettledAsWritten(active: set<Handle>, req: Request, o: CheckOutcome): (r: set<Handle>)
    ensures r <= active && req.outer !in r
    ensures o.Returned? ==> req.inner !in r
    ensures o.Threw? && req.inner != req.outer && req.inner in active ==> req.inner in r
  {
    (if o.Returned? then active - {req.inner} else active) - {req.outer}
  }

  /** A rejected check leaves its inner controller registered after it has settled. */
  lemma InnerControllerLeaks(active: set<Handle>, req: Request, name: string, message: string)
    requires req.outer != req.inner && req.outer !in active && req.inner !in active
    ensures SettledAsWritten(active + {req.outer, req.inner}, req, Threw(name, message)) == active + {req.inner}
    ensures SettledAsWritten(active + {req.outer, req.inner}, req, Threw(name, message)) != active
  {
    assert req.inner in active + {req.inner};
  }

  /**
   * The corrected rule: the set after a check settles with both controllers
   * removed on every path, as if `checkUrl` deleted its controller in a
   * `finally` block.
   */
  function Settled(active: set<Handle>, req: Request): (r: set<Handle>)
    ensures req.outer !in r && req.inner !in r
    ensures r <= active
  {
    active - {req.outer, req.inner}
  }

  /** Dispatching and then settling a check leaves the registry as it was, whatever the outcome. */
  lemma SettleRestoresRegistry(active: set<Handle>, req: Request)
    requires req.outer !in active && req.inner !in active
    ensures Settled(active + {req.outer, req.inner}, req) == active
  {
  }

  /** The background page's mutable state. */
  class Background {
    /** `activeRequests`. */
    var activeRequests: set<Handle>
    /** Every controller on which `abort()` has been called. */
    var aborted: set<Handle>
    /** The handle the next `new AbortController()` gets. */
    var nextHandle: Handle

    ghost predicate Valid()
      reads this
    {
      forall h | h in activeRequests :: h < nextHandle
    }

    constructor ()
      ensures Valid() && activeRequests == {} && aborted == {}
    {
      activeRequests := {};
      aborted := {};
      nextHandle := 0;
    }

    /** A `checkUrl` message arrives: two fresh controllers are registered. */
    method Dispatch() returns (req: Request)
      requires Valid()
      modifies this
      ensures Valid()
      ensures req.outer != req.inner
      ensures req.outer !in old(activeRequests) && req.inner !in old(activeRequests)
      ensures activeRequests == old(activeRequests) + {req.outer, req.inner}
      ensures aborted == old(aborted)
    {
      req := Request(nextHandle, nextHandle + 1);
      activeRequests := activeRequests + {req.outer};
      activeRequests := activeRequests + {req.inner};
      nextHandle := nextHandle + 2;
    }

    /**
     * The check of `req` settles with `o`: `checkUrl` drops its inner
     * controller only when `checkUrlOnce` returned, then the handler drops
     * the outer one and sends the reply.
     */
    method Settle(req: Request, o: CheckOutcome) returns (response: Verdict)
      requires Valid()
      modifies this
      ensures Valid()
      ensures response == Response(o)
      ensures activeRequests == SettledAsWritten(old(activeRequests), req, o)
      ensures aborted == old(aborted) && nextHandle == old(nextHandle)
    {
      if o.Returned? {
        activeRequests := activeRequests - {req.inner};
      }
      var r := CheckUrl(o);
      activeRequests := activeRequests - {req.outer};
      response := match r
        case Success(v) => v
        case Failure(m) => Verdict(false, Some(m), None, None);
    }

    /** A `cancelScan` message: every registered controller is aborted and the set is cleared. */
    method CancelScan()
      requires Valid()
      modifies this
      ensures Valid()
      ensures aborted == old(aborted) + old(activeRequests)
      ensures activeRequests == {}
      ensures nextHandle == old(nextHandle)
    {
      aborted := aborted + activeRequests;
      activeRequests := {};
    }
  }

  /** A registry that starts empty is empty again once the one check it dispatched has returned a verdict. */
  method CheckLeavesRegistryEmpty(v: Verdict) returns (b: Background)
    ensures b.activeRequests == {}
  {
    b := new Background();
    var req := b.Dispatch();
    var _ := b.Settle(req, Returned(v));
  }

  /**
   * A registry that starts empty still holds the check's inner controller
   * after the check was rejected: only `cancelScan` removes it.
   */
  method CheckLeavesInnerOnRejection(name: string, message: string) returns (b: Background, req: Request)
    ensures req.inner != req.outer
    ensures b.activeRequests == {req.inner}
  {
    b := new Background();
    req := b.Dispatch();
    var _ := b.Settle(req, Threw(name, message));
    InnerControllerLeaks({}, req, name, message);
  }
}
