/**
 * The background page's verdict rules: how an HTTP status, a low-level
 * network error code or the special-protocol short-circuit turns into a
 * `{isValid, reason, alternateUrl, redirectUrl}` verdict.
 */
module Verdicts {
  import opened Wrappers
  import opened Strings
  import Bookmarks

  /**
   * A verdict. Valid with no reason is a live link, valid with a reason is
   * live with a caveat, invalid carries the cause of failure.
   */
  datatype Verdict = Verdict(
    isValid: bool,
    reason: Option<string>,
    alternateUrl: Option<string>,
    redirectUrl: Option<string>)

  function Valid(): Verdict { Verdict(true, None, None, None) }
  function Caveat(reason: string): Verdict { Verdict(true, Some(reason), None, None) }
  function Invalid(reason: string): Verdict { Verdict(false, Some(reason), None, None) }

  /** `browser.i18n.getMessage(name, substitutions)`, left uninterpreted. */
  type I18n = (string, string) -> string

  /** A JavaScript reason is truthy when present and non-empty. */
  predicate Truthy(reason: Option<string>) {
    reason.Some? && reason.value != ""
  }

  // ---------------------------------------------------------------- statuses

  const CaveatStatuses: seq<int> := [401, 403, 429, 405, 406, 407, 408]

  /** `getStatusCodeReason`: a fixed phrase for 401, 403 and 429, else the number. */
  function StatusCodeReason(code: int): (r: string)
    ensures code == 401 ==> r == "Requires authentication"
    ensures code == 403 ==> r == "Access restricted"
    ensures code == 429 ==> r == "Too many requests"
    ensures code !in {401, 403, 429} ==> r == "Status code: " + IntToString(code)
  {
    if code == 401 then "Requires authentication"
    else if code == 403 then "Access restricted"
    else if code == 429 then "Too many requests"
    else "Status code: " + IntToString(code)
  }

  /** `handleStatusCode`; `None` stands for its `null` result. */
  function HandleStatusCode(code: int, msg: I18n): (r: Option<Verdict>)
    ensures 200 <= code < 400 ==> r == Some(Valid())
    ensures code in CaveatStatuses ==> r == Some(Caveat(StatusCodeReason(code)))
    ensures code == 503 || code == 504 ==> r == Some(Caveat("Service temporarily unavailable"))
    ensures code == 502 ==> r == Some(Caveat(msg("errorType_badGateway", "Bad Gateway")))
    ensures code == 501 ==> r == Some(Invalid(msg("errorType_notImplemented", "Service not implemented")))
    ensures code >= 500 && code !in {501, 502, 503, 504} ==> r == Some(Invalid(msg("errorType_serverError", "Server Error")))
    ensures r.None? <==> code < 200 || (400 <= code < 500 && code !in CaveatStatuses)
    ensures r.Some? ==> r.value.alternateUrl.None? && r.value.redirectUrl.None?
  {
    if 200 <= code < 400 then Some(Valid())
    else if code in CaveatStatuses then Some(Caveat(StatusCodeReason(code)))
    else if code >= 500 then
      if code == 503 || code == 504 then Some(Caveat("Service temporarily unavailable"))
      else if code == 501 then Some(Invalid(msg("errorType_notImplemented", "Service not implemented")))
      else if code == 502 then Some(Caveat(msg("errorType_badGateway", "Bad Gateway")))
      else Some(Invalid(msg("errorType_serverError", "Server Error")))
    else None
  }

  /**
   * The response listener's verdict for `statusCode` once the request has
   * been redirected to `finalUrl` (or not, when `finalUrl == url`).
   */
  function ResponseVerdict(code: int, finalUrl: string, url: string, msg: I18n): (r: Verdict)
    ensures HandleStatusCode(code, msg).None? ==> r == Invalid("HTTP Error: " + IntToString(code))
    ensures HandleStatusCode(code, msg).Some? ==>
      r.isValid == HandleStatusCode(code, msg).value.isValid
    ensures HandleStatusCode(code, msg).Some? && (finalUrl == "" || finalUrl == url) ==>
      r == HandleStatusCode(code, msg).value
    ensures HandleStatusCode(code, msg).Some? && finalUrl != "" && finalUrl != url ==>
      r.redirectUrl == Some(finalUrl) &&
      r.reason == (if Truthy(HandleStatusCode(code, msg).value.reason)
                   then HandleStatusCode(code, msg).value.reason
                   else Some("Redirected to " + finalUrl))
  {
    match HandleStatusCode(code, msg)
    case None => Invalid("HTTP Error: " + IntToString(code))
    case Some(v) =>
      if finalUrl != "" && finalUrl != url then
        v.(redirectUrl := Some(finalUrl),
           reason := if Truthy(v.reason) then v.reason else Some("Redirected to " + finalUrl))
      else v
  }

  // ---------------------------------------------------------- network errors

  /** The four groups the error listener sorts `details.error` into. */
  datatype ErrorCategory = Connection | Access | Certificate | Other

  const ConnectionErrors: seq<string> := [
    "net::ERR_SOCKET_NOT_CONNECTED", "net::ERR_CONNECTION_CLOSED", "net::ERR_CONNECTION_RESET",
    "net::ERR_CONNECTION_REFUSED", "net::ERR_CONNECTION_TIMED_OUT"]

  const AccessErrors: seq<string> := [
    "net::ERR_NETWORK_ACCESS_DENIED", "net::ERR_BLOCKED_BY_RESPONSE", "net::ERR_BLOCKED_BY_CLIENT",
    "net::ERR_ABORTED", "net::ERR_FAILED"]

  const CertErrors: seq<string> := [
    "net::ERR_CERT_COMMON_NAME_INVALID", "net::ERR_CERT_AUTHORITY_INVALID", "net::ERR_CERT_DATE_INVALID"]

  function Categorize(code: string): (c: ErrorCategory)
    ensures c == Connection <==> code in ConnectionErrors
    ensures c == Access <==> code !in ConnectionErrors && code in AccessErrors
    ensures c == Certificate <==> code !in ConnectionErrors && code !in AccessErrors && code in CertErrors
  {
    if code in ConnectionErrors then Connection
    else if code in AccessErrors then Access
    else if code in CertErrors then Certificate
    else Other
  }

  /** The scheme of a URL with its colon (`urlObj.protocol`), lower-cased as the URL parser does. */
  function Scheme(url: string): (r: string)
    ensures |r| <= |url|
  {
    Lower(SchemeRaw(url))
  }

  /** The characters up to and including the first colon, or nothing when there is none. */
  function SchemeRaw(url: string): (r: string)
    ensures r <= url
    ensures r != [] ==> r[|r| - 1] == ':' && ':' !in r[..|r| - 1]
    ensures r == [] ==> ':' !in url
  {
    if url == [] then []
    else if url[0] == ':' then [':']
    else
      var rest := SchemeRaw(url[1..]);
      if rest == [] then [] else [url[0]] + rest
  }

  /** The scheme the connection-error branch suggests: http for https, https for anything else. */
  function FlippedScheme(url: string): string {
    if Scheme(url) == "https:" then "http:" else "https:"
  }

  /**
   * The alternate URL: the same URL with its scheme replaced by
   * `FlippedScheme(url)`; the URL serializer's other normalisations are not modelled.
   */
  function FlipScheme(url: string): (r: string)
    ensures StartsWith(r, FlippedScheme(url))
  {
    FlippedScheme(url) + url[|SchemeRaw(url)|..]
  }

  /** The scheme of `prefix + ":" + rest` is `prefix + ":"` when `prefix` holds no colon. */
  lemma {:induction false} SchemeRawOf(prefix: string, rest: string)
    requires ':' !in prefix
    ensures SchemeRaw(prefix + ":" + rest) == prefix + ":"
  {
    if prefix != [] {
      assert (prefix + ":" + rest)[1..] == prefix[1..] + ":" + rest;
      SchemeRawOf(prefix[1..], rest);
    }
  }

  /** Lower-casing leaves a string without upper-case letters as it is. */
  lemma LowerKeeps(t: string)
    requires forall i :: 0 <= i < |t| ==> !('A' <= t[i] <= 'Z')
    ensures Lower(t) == t
  {
  }

  /** The scheme of `http:` or `https:` followed by `rest`. */
  lemma SchemeOfWeb(prefix: string, rest: string)
    requires prefix == "http" || prefix == "https"
    ensures SchemeRaw(prefix + ":" + rest) == prefix + ":"
    ensures Scheme(prefix + ":" + rest) == prefix + ":"
  {
    assert ':' !in prefix;
    SchemeRawOf(prefix, rest);
    LowerKeeps(prefix + ":");
  }

  /** Flipping the scheme of `http:` or `https:` followed by `rest` swaps the two and keeps `rest`. */
  lemma FlipSchemeOf(prefix: string, rest: string)
    requires prefix == "http" || prefix == "https"
    ensures FlipScheme(prefix + ":" + rest) == (if prefix == "https" then "http" else "https") + ":" + rest
  {
    var url := prefix + ":" + rest;
    SchemeOfWeb(prefix, rest);
    assert url[|prefix + ":"|..] == rest;
    if prefix == "https" {
      assert FlippedScheme(url) == "http:";
    } else {
      assert |Scheme(url)| == 5;
      assert FlippedScheme(url) == "https:";
    }
  }

  /** Flipping the scheme of an http or https URL twice gives the URL back. */
  lemma FlipSchemeTwice(url: string)
    requires StartsWith(url, "http:") || StartsWith(url, "https:")
    ensures FlipScheme(FlipScheme(url)) == url
  {
    if StartsWith(url, "https:") {
      var rest := url[6..];
      assert url == "https" + ":" + rest;
      FlipSchemeOf("https", rest);
      FlipSchemeOf("http", rest);
    } else {
      var rest := url[5..];
      assert url == "http" + ":" + rest;
      FlipSchemeOf("http", rest);
      FlipSchemeOf("https", rest);
    }
  }

  /** The error listener's verdict for the network error `code` reported for `url`. */
  function ErrorVerdict(code: string, url: string): (r: Verdict)
    ensures r.isValid <==> Categorize(code) != Other
    ensures Categorize(code) == Connection <==> r.alternateUrl.Some?
    ensures Categorize(code) == Connection ==> r.alternateUrl == Some(FlipScheme(url))
    ensures Categorize(code) == Access ==>
      r == Caveat("Site blocks automated access but might be accessible in browser")
    ensures Categorize(code) == Certificate ==>
      r == Caveat("Site has certificate issues but might be accessible")
    ensures Categorize(code) == Other ==> r == Invalid(code)
    ensures r.redirectUrl.None?
  {
    match Categorize(code)
    case Connection =>
      var flipped := FlippedScheme(url);
      Verdict(true, Some("Connection failed, might be temporary or try " + flipped[..|flipped| - 1]),
              Some(FlipScheme(url)), None)
    case Access => Caveat("Site blocks automated access but might be accessible in browser")
    case Certificate => Caveat("Site has certificate issues but might be accessible")
    case Other => Invalid(code)
  }

  // ------------------------------------------------------------ short-circuits

  /** `specialProtocols` of `checkUrlOnce`: the same ten prefixes as the scan page, in another order. */
  const SpecialProtocols: seq<string> := [
    "chrome:", "chrome-extension:", "edge:", "about:", "firefox:", "moz-extension:",
    "file:", "data:", "javascript:", "brave:"]

  /** Both lists name the same ten prefixes, so both pages agree on what is special. */
  lemma SameSpecialProtocols(url: string)
    ensures Bookmarks.HasProtocolPrefix(url, SpecialProtocols)
        <==> Bookmarks.HasProtocolPrefix(url, Bookmarks.ValidProtocols)
  {
    assert forall p :: p in SpecialProtocols <==> p in Bookmarks.ValidProtocols;
  }
}
