/**
 * One run of `checkUrlOnce`: the closure state its four webRequest
 * listeners, the fetch probe and the timeout share, driven here by a
 * sequence of events instead of by real asynchrony.
 *
 * `Step` is the specification of one event; the class `UrlCheckRun`
 * keeps the same state in fields that its handlers update in place, each
 * handler proved to perform exactly `Step`.
 */
module UrlCheck {
  import opened Wrappers
  import opened Strings
  import opened Verdicts
  import Bookmarks

  /** One entry of `requestLog.redirects` (timestamps are not modelled). */
  datatype RedirectEntry = RedirectEntry(from: string, to: string)

  /** What can happen to a pending check, in the order it happens. */
  datatype Event =
    | ResponseStarted(statusCode: int)          // webRequest.onResponseStarted
    | Completed(statusCode: int)                // webRequest.onCompleted
    | BeforeRedirect(from: string, to: string)  // webRequest.onBeforeRedirect
    | ErrorOccurred(error: string)              // webRequest.onErrorOccurred
    | FetchResolved                             // the fetch probe resolved
    | FetchRejected(name: string, message: string) // the fetch probe rejected
    | TimerFired                                // the setTimeout callback ran

  /**
   * The closure state of one pending check. `settled` is the value the
   * returned promise settled with; `isResolved` is the source's own flag,
   * which the no-response timeout path leaves false. `detached` records
   * that the onCompleted, onErrorOccurred and onBeforeRedirect listeners
   * were removed (onResponseStarted never is).
   */
  datatype CheckState = CheckState(
    url: string,
    finalUrl: string,
    isResolved: bool,
    hasResponse: bool,
    redirects: seq<RedirectEntry>,
    errors: seq<string>,
    statusCode: Option<int>,
    detached: bool,
    fetchAborted: bool,
    fetchSettled: bool,
    timerFired: bool,
    settled: Option<Verdict>)

  /** The state right after the listeners, the timer and the fetch are set up. */
  function Init(url: string): (s: CheckState)
    ensures s.settled.None? && !s.isResolved && !s.hasResponse && s.finalUrl == url
  {
    CheckState(url, url, false, false, [], [], None, false, false, false, false, None)
  }

  /** How `checkUrlOnce` starts: a verdict without any network activity, or a pending check. */
  datatype Start = Immediate(verdict: Verdict) | Pending(state: CheckState)

  /**
   * The synchronous part of `checkUrlOnce`: the URL is parsed first
   * (`parses` is whether `new URL(url)` succeeds), then special protocols
   * are answered at once.
   */
  function CheckUrlOnce(url: string, parses: bool): (r: Start)
    ensures !parses ==> r == Immediate(Invalid("Invalid URL format"))
    ensures parses && Bookmarks.HasProtocolPrefix(url, SpecialProtocols) ==>
      r == Immediate(Caveat("Special protocol URL"))
    ensures parses && !Bookmarks.HasProtocolPrefix(url, SpecialProtocols) ==> r == Pending(Init(url))
  {
    if !parses then Immediate(Invalid("Invalid URL format"))
    else if Bookmarks.HasProtocolPrefix(url, SpecialProtocols) then Immediate(Caveat("Special protocol URL"))
    else Pending(Init(url))
  }

  /** `resolve(v)`: a promise keeps the first value it is resolved with. */
  function SettleWith(s: CheckState, v: Verdict): CheckState {
    if s.settled.None? then s.(settled := Some(v)) else s
  }

  /** `resolveResult(v)`: guarded by `isResolved`, which it sets. */
  function ResolveWith(s: CheckState, v: Verdict): CheckState {
    if s.isResolved then s else SettleWith(s.(isResolved := true), v)
  }

  /** The shared response listener behind onResponseStarted and onCompleted. */
  function OnResponse(s: CheckState, code: int, msg: I18n): CheckState {
    if s.isResolved then s
    else
      var s1 := s.(hasResponse := true, statusCode := Some(code));
      ResolveWith(s1, ResponseVerdict(code, s1.finalUrl, s1.url, msg))
  }

  const TimeoutReason := "Request Timeout"
  const SlowReason := "Site is responding but slow"
  const BlockedReason := "Site blocks automated access but might be accessible in browser"

  /** The effect of one event on a pending check. */
  function Step(s: CheckState, e: Event, msg: I18n): (r: CheckState)
    // settle once: a settled promise keeps its value
    ensures s.settled.Some? ==> r.settled == s.settled
    ensures s.isResolved ==> r.isResolved
    ensures s.hasResponse ==> r.hasResponse
    ensures r.url == s.url
    // response and error events after resolution change nothing
    ensures s.isResolved && (e.ResponseStarted? || e.Completed? || e.ErrorOccurred?) ==> r == s
    // the first response or error decides the verdict
    ensures !s.isResolved && s.settled.None? && e.ResponseStarted? ==>
      r.settled == Some(ResponseVerdict(e.statusCode, s.finalUrl, s.url, msg))
    ensures !s.isResolved && !s.detached && s.settled.None? && e.Completed? ==>
      r.settled == Some(ResponseVerdict(e.statusCode, s.finalUrl, s.url, msg))
    ensures !s.isResolved && !s.detached && s.settled.None? && e.ErrorOccurred? ==>
      r.settled == Some(ErrorVerdict(e.error, s.url))
    // a redirect is logged and moves finalUrl even after resolution
    ensures !s.detached && e.BeforeRedirect? ==>
      r.finalUrl == e.to && r.redirects == s.redirects + [RedirectEntry(e.from, e.to)] && r.settled == s.settled
    // any listener event that is heard, or a resolved fetch, marks the site as responding
    ensures !s.isResolved &&
            (e.ResponseStarted? || (e.Completed? && !s.detached) || (e.ErrorOccurred? && !s.detached))
            ==> r.hasResponse
    ensures e.BeforeRedirect? && !s.detached ==> r.hasResponse
    ensures e.FetchResolved? && !s.fetchSettled ==> r.hasResponse && r.settled == s.settled
    // fetch rejection: only the opaque "Failed to fetch" TypeError gives a verdict
    ensures e.FetchRejected? && !s.fetchSettled && !s.isResolved && s.settled.None? ==>
      r.settled == (if e.name == "TypeError" && e.message == "Failed to fetch"
                    then Some(Caveat(BlockedReason)) else None)
    // the timeout
    ensures e.TimerFired? && !s.timerFired && !s.isResolved && s.settled.None? ==>
      r.settled == Some(if s.hasResponse then Caveat(SlowReason) else Invalid(TimeoutReason))
    ensures e.TimerFired? && !s.timerFired && !s.isResolved && !s.hasResponse ==>
      r.detached && r.fetchAborted && !r.isResolved
    ensures e.TimerFired? && s.timerFired ==> r == s
  {
    match e
    case ResponseStarted(code) => OnResponse(s, code, msg)
    case Completed(code) => if s.detached then s else OnResponse(s, code, msg)
    case BeforeRedirect(from, to) => RedirectStep(s, from, to)
    case ErrorOccurred(error) => ErrorStep(s, error)
    case FetchResolved => FetchResolvedStep(s)
    case FetchRejected(name, message) => FetchRejectedStep(s, name, message)
    case TimerFired => TimerStep(s)
  }

  /** The onBeforeRedirect listener, while it is attached. */
  function RedirectStep(s: CheckState, from: string, to: string): (r: CheckState)
    ensures r.settled == s.settled && r.isResolved == s.isResolved && r.url == s.url
    ensures s.hasResponse ==> r.hasResponse
    ensures !s.detached ==> r.hasResponse && r.finalUrl == to && r.redirects == s.redirects + [RedirectEntry(from, to)]
    ensures r.detached == s.detached && r.fetchAborted == s.fetchAborted && r.timerFired == s.timerFired
  {
    if s.detached then s
    else s.(hasResponse := true, redirects := s.redirects + [RedirectEntry(from, to)], finalUrl := to)
  }

  /** The onErrorOccurred listener, while it is attached. */
  function ErrorStep(s: CheckState, error: string): (r: CheckState)
    ensures s.settled.Some? ==> r.settled == s.settled
    ensures s.isResolved ==> r == s
    ensures !s.isResolved && !s.detached && s.settled.None? ==> r.settled == Some(ErrorVerdict(error, s.url))
    ensures !s.isResolved && !s.detached ==> r.hasResponse && r.isResolved
    ensures s.hasResponse ==> r.hasResponse
    ensures r.url == s.url && r.detached == s.detached && r.fetchAborted == s.fetchAborted && r.timerFired == s.timerFired
    ensures s.detached ==> r.isResolved == s.isResolved && r.settled == s.settled
  {
    if s.detached || s.isResolved then s
    else ResolveWith(s.(hasResponse := true, errors := s.errors + [error]), ErrorVerdict(error, s.url))
  }

  /** The fetch probe resolved. */
  function FetchResolvedStep(s: CheckState): (r: CheckState)
    ensures r.settled == s.settled && r.isResolved == s.isResolved && r.url == s.url
    ensures !s.fetchSettled ==> r.hasResponse
    ensures s.hasResponse ==> r.hasResponse
    ensures r.detached == s.detached && r.fetchAborted == s.fetchAborted && r.timerFired == s.timerFired
  {
    if s.fetchSettled then s else s.(fetchSettled := true, hasResponse := true)
  }

  /** The fetch probe rejected: only the opaque "Failed to fetch" TypeError gives a verdict. */
  function FetchRejectedStep(s: CheckState, name: string, message: string): (r: CheckState)
    ensures s.settled.Some? ==> r.settled == s.settled
    ensures s.isResolved ==> r.isResolved
    ensures r.hasResponse == s.hasResponse && r.url == s.url
    ensures !s.fetchSettled && !s.isResolved && s.settled.None? ==>
      r.settled == (if name == "TypeError" && message == "Failed to fetch" then Some(Caveat(BlockedReason)) else None)
    ensures !(name == "TypeError" && message == "Failed to fetch") ==> r.isResolved == s.isResolved && r.settled == s.settled
    ensures r.settled.Some? && s.settled.None? ==> r.isResolved
    ensures r.detached == s.detached && r.fetchAborted == s.fetchAborted && r.timerFired == s.timerFired
  {
    if s.fetchSettled then s
    else
      var s1 := s.(fetchSettled := true);
      if name == "TypeError" && message == "Failed to fetch" then ResolveWith(s1, Caveat(BlockedReason))
      else s1
  }

  /** The timer's callback: a silent site is invalid and its listeners are removed; a responding one is slow. */
  function TimerStep(s: CheckState): (r: CheckState)
    ensures s.settled.Some? ==> r.settled == s.settled
    ensures s.isResolved ==> r.isResolved
    ensures r.hasResponse == s.hasResponse && r.url == s.url
    ensures s.timerFired ==> r == s
    ensures !s.timerFired && !s.isResolved && s.settled.None? ==>
      r.settled == Some(if s.hasResponse then Caveat(SlowReason) else Invalid(TimeoutReason))
    ensures !s.timerFired && !s.isResolved && !s.hasResponse ==> r.detached && r.fetchAborted && !r.isResolved
    ensures r.timerFired
  {
    if s.timerFired then s
    else
      var s1 := s.(timerFired := true);
      if s1.isResolved then s1
      else if !s1.hasResponse then
        SettleWith(s1.(fetchAborted := true, detached := true), Invalid(TimeoutReason))
      else ResolveWith(s1, Caveat(SlowReason))
  }

  /** The state after a whole sequence of events. */
  function Run(s: CheckState, events: seq<Event>, msg: I18n): CheckState
    decreases |events|
  {
    if events == [] then s else Run(Step(s, events[0], msg), events[1..], msg)
  }

  /** Running one more event is one more step. */
  lemma RunSnoc(s: CheckState, events: seq<Event>, i: nat, msg: I18n)
    requires i < |events|
    ensures Run(s, events[..i + 1], msg) == Step(Run(s, events[..i], msg), events[i], msg)
  {
    RunAppend(s, events[..i], [events[i]], msg);
    assert events[..i + 1] == events[..i] + [events[i]];
    assert Run(Run(s, events[..i], msg), [events[i]], msg) == Run(Step(Run(s, events[..i], msg), events[i], msg), [], msg);
  }

  /** Running `a` and then `b` is running `a + b`. */
  lemma {:induction false} RunAppend(s: CheckState, a: seq<Event>, b: seq<Event>, msg: I18n)
    ensures Run(s, a + b, msg) == Run(Run(s, a, msg), b, msg)
    decreases |a|
  {
    if a != [] {
      assert (a + b)[0] == a[0];
      assert (a + b)[1..] == a[1..] + b;
      RunAppend(Step(s, a[0], msg), a[1..], b, msg);
    } else {
      assert a + b == b;
    }
  }

  /** Once the promise has settled, no sequence of later events changes its value. */
  lemma {:induction false} SettledIsFinal(s: CheckState, events: seq<Event>, msg: I18n)
    requires s.settled.Some?
    ensures Run(s, events, msg).settled == s.settled
    decreases |events|
  {
    if events != [] {
      SettledIsFinal(Step(s, events[0], msg), events[1..], msg);
    }
  }

  /** The first verdict delivered is the final one, whatever events follow it. */
  lemma FirstVerdictWins(url: string, before: seq<Event>, after: seq<Event>, msg: I18n)
    requires Run(Init(url), before, msg).settled.Some?
    ensures Run(Init(url), before + after, msg).settled == Run(Init(url), before, msg).settled
  {
    RunAppend(Init(url), before, after, msg);
    SettledIsFinal(Run(Init(url), before, msg), after, msg);
  }

  /**
   * The closure state stays consistent: the promise has settled exactly
   * when `isResolved` was set or the no-response timeout detached the
   * listeners, and only the timer aborts the fetch.
   */
  ghost predicate Consistent(s: CheckState) {
    && (s.settled.Some? <==> s.isResolved || s.detached)
    && (s.detached ==> s.timerFired)
    && (s.fetchAborted <==> s.detached)
  }

  lemma {:induction false} RunConsistent(s: CheckState, events: seq<Event>, msg: I18n)
    requires Consistent(s)
    ensures Consistent(Run(s, events, msg))
    decreases |events|
  {
    if events != [] {
      var s1 := Step(s, events[0], msg);
      assert Consistent(s1);
      RunConsistent(s1, events[1..], msg);
    }
  }

  /** Every check that starts pending is consistent throughout its run. */
  lemma PendingRunConsistent(url: string, events: seq<Event>, msg: I18n)
    ensures Consistent(Run(Init(url), events, msg))
  {
    RunConsistent(Init(url), events, msg);
  }

  /** A check that hears nothing before its timer fires ends invalid with "Request Timeout". */
  lemma SilentTimeout(url: string, events: seq<Event>, msg: I18n)
    requires forall i :: 0 <= i < |events| ==> events[i].FetchRejected?
    requires forall i :: 0 <= i < |events| ==> events[i].name != "TypeError"
    ensures Run(Init(url), events + [TimerFired], msg).settled == Some(Invalid(TimeoutReason))
  {
    RunAppend(Init(url), events, [TimerFired], msg);
    SilentPrefix(Init(url), events, msg);
  }

  lemma {:induction false} SilentPrefix(s: CheckState, events: seq<Event>, msg: I18n)
    requires !s.isResolved && !s.hasResponse && !s.timerFired && s.settled.None?
    requires forall i :: 0 <= i < |events| ==> events[i].FetchRejected?
    requires forall i :: 0 <= i < |events| ==> events[i].name != "TypeError"
    ensures var r := Run(s, events, msg);
      !r.isResolved && !r.hasResponse && !r.timerFired && r.settled.None?
    decreases |events|
  {
    if events != [] {
      SilentPrefix(Step(s, events[0], msg), events[1..], msg);
    }
  }

  /**
   * The closure of one pending `checkUrlOnce` call as an object: each
   * handler updates the fields in place, as the JavaScript closures do.
   */
  class UrlCheckRun {
    const url: string
    const msg: I18n
    var finalUrl: string
    var isResolved: bool
    var hasResponse: bool
    var redirects: seq<RedirectEntry>
    var errors: seq<string>
    var statusCode: Option<int>
    var detached: bool
    var fetchAborted: bool
    var fetchSettled: bool
    var timerFired: bool
    var settled: Option<Verdict>

    /** The fields read as one `CheckState`. */
    ghost function State(): CheckState
      reads this
    {
      CheckState(url, finalUrl, isResolved, hasResponse, redirects, errors, statusCode,
                 detached, fetchAborted, fetchSettled, timerFired, settled)
    }

    constructor (url: string, msg: I18n)
      ensures State() == Init(url) && this.msg == msg
    {
      this.url := url;
      this.msg := msg;
      finalUrl := url;
      isResolved := false;
      hasResponse := false;
      redirects := [];
      errors := [];
      statusCode := None;
      detached := false;
      fetchAborted := false;
      fetchSettled := false;
      timerFired := false;
      settled := None;
    }

    /** `resolve(v)` of the promise. */
    method Resolve(v: Verdict)
      modifies this
      ensures State() == SettleWith(old(State()), v)
    {
      if settled.None? {
        settled := Some(v);
      }
    }

    /** `resolveResult(v)`. */
    method ResolveResult(v: Verdict)
      modifies this
      ensures State() == ResolveWith(old(State()), v)
    {
      if !isResolved {
        isResolved := true;
        Resolve(v);
      }
    }

    /** The response listener. */
    method Listener(code: int)
      modifies this
      ensures State() == OnResponse(old(State()), code, msg)
    {
      if isResolved {
        return;
      }
      hasResponse := true;
      statusCode := Some(code);
      var result := ResponseVerdict(code, finalUrl, url, msg);
      ResolveResult(result);
    }

    method OnResponseStarted(code: int)
      modifies this
      ensures State() == Step(old(State()), ResponseStarted(code), msg)
    {
      Listener(code);
    }

    method OnCompleted(code: int)
      modifies this
      ensures State() == Step(old(State()), Completed(code), msg)
    {
      if !detached {
        Listener(code);
      }
    }

    /** The redirect listener, which has no `isResolved` guard. */
    method OnBeforeRedirect(from: string, to: string)
      modifies this
      ensures State() == Step(old(State()), BeforeRedirect(from, to), msg)
    {
      if detached {
        return;
      }
      hasResponse := true;
      redirects := redirects + [RedirectEntry(from, to)];
      finalUrl := to;
    }

    /** The error listener. */
    method OnErrorOccurred(error: string)
      modifies this
      ensures State() == Step(old(State()), ErrorOccurred(error), msg)
    {
      if detached || isResolved {
        return;
      }
      hasResponse := true;
      errors := errors + [error];
      ResolveResult(ErrorVerdict(error, url));
    }

    method OnFetchResolved()
      modifies this
      ensures State() == Step(old(State()), FetchResolved, msg)
    {
      if !fetchSettled {
        fetchSettled := true;
        hasResponse := true;
      }
    }

    method OnFetchRejected(name: string, message: string)
      modifies this
      ensures State() == Step(old(State()), FetchRejected(name, message), msg)
    {
      if fetchSettled {
        return;
      }
      fetchSettled := true;
      if name == "TypeError" && message == "Failed to fetch" {
        ResolveResult(Caveat(BlockedReason));
      }
    }

    /** The timeout callback. */
    method OnTimer()
      modifies this
      ensures State() == Step(old(State()), TimerFired, msg)
    {
      if timerFired {
        return;
      }
      timerFired := true;
      if isResolved {
        return;
      }
      if !hasResponse {
        fetchAborted := true;
        detached := true;
        Resolve(Invalid(TimeoutReason));
      } else {
        ResolveResult(Caveat(SlowReason));
      }
    }

    /** Feeds one event to the matching handler. */
    method Dispatch(e: Event)
      modifies this
      ensures State() == Step(old(State()), e, msg)
    {
      match e
      case ResponseStarted(code) => OnResponseStarted(code);
      case Completed(code) => OnCompleted(code);
      case BeforeRedirect(from, to) => OnBeforeRedirect(from, to);
      case ErrorOccurred(error) => OnErrorOccurred(error);
      case FetchResolved => OnFetchResolved();
      case FetchRejected(name, message) => OnFetchRejected(name, message);
      case TimerFired => OnTimer();
    }

    /** Feeds a whole sequence of events, in order. */
    method DispatchAll(events: seq<Event>)
      modifies this
      ensures State() == Run(old(State()), events, msg)
    {
      ghost var start := State();
      var i := 0;
      while i < |events|
        invariant 0 <= i <= |events|
        invariant State() == Run(start, events[..i], msg)
      {
        Dispatch(events[i]);
        RunSnoc(start, events, i, msg);
        i := i + 1;
      }
      assert events[..i] == events;
    }
  }
}
