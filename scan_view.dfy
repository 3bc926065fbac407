/**
 * The pure pieces of the scan page's rendering: HTML escaping, the elapsed
 * time display, the translation of a verdict's reason into a message, and
 * the results list's filter and select-all toggle.
 */
module ScanView {
  import opened Wrappers
  import opened Strings
  import Verdicts

  // ---------------------------------------------------------------- escapeHtml

  /** The five characters `escapeHtml` rewrites. */
  predicate IsHtmlSpecial(c: char) {
    c == '&' || c == '<' || c == '>' || c == '"' || c == '\''
  }

  /**
   * `escapeHtml`: empty input gives the empty string; otherwise `&` is
   * replaced first, then `<`, `>`, `"` and `'`, each over the whole text.
   */
  function EscapeHtml(s: string): string {
    if s == "" then ""
    else ReplaceChar(ReplaceChar(ReplaceChar(ReplaceChar(ReplaceChar(
      s, '&', "&amp;"), '<', "&lt;"), '>', "&gt;"), '"', "&quot;"), '\'', "&#039;")
  }

  /** The entity one character turns into. */
  function EscapeChar(c: char): (r: string)
    ensures !IsHtmlSpecial(c) ==> r == [c]
  {
    if c == '&' then "&amp;"
    else if c == '<' then "&lt;"
    else if c == '>' then "&gt;"
    else if c == '"' then "&quot;"
    else if c == '\'' then "&#039;"
    else [c]
  }

  /** A one-pass reference: every character replaced by its entity. */
  function EscapeEach(s: string): string {
    if s == [] then [] else EscapeChar(s[0]) + EscapeEach(s[1..])
  }

  /** Decoding the five entities, as a browser does when it renders the text. */
  function Unescape(s: string): string
    decreases |s|
  {
    if s == [] then []
    else if StartsWith(s, "&amp;") then "&" + Unescape(s[5..])
    else if StartsWith(s, "&lt;") then "<" + Unescape(s[4..])
    else if StartsWith(s, "&gt;") then ">" + Unescape(s[4..])
    else if StartsWith(s, "&quot;") then "\"" + Unescape(s[6..])
    else if StartsWith(s, "&#039;") then "'" + Unescape(s[6..])
    else [s[0]] + Unescape(s[1..])
  }

  lemma {:induction false} ReplaceAppend(a: string, b: string, c: char, rep: string)
    ensures ReplaceChar(a + b, c, rep) == ReplaceChar(a, c, rep) + ReplaceChar(b, c, rep)
    decreases |a|
  {
    if a == [] {
      assert a + b == b;
    } else {
      assert (a + b)[0] == a[0];
      assert (a + b)[1..] == a[1..] + b;
      ReplaceAppend(a[1..], b, c, rep);
    }
  }

  /** The replacement chain without the empty-input guard. */
  function Chain(s: string): string {
    ReplaceChar(ReplaceChar(ReplaceChar(ReplaceChar(ReplaceChar(
      s, '&', "&amp;"), '<', "&lt;"), '>', "&gt;"), '"', "&quot;"), '\'', "&#039;")
  }

  lemma ChainAppend(a: string, b: string)
    ensures Chain(a + b) == Chain(a) + Chain(b)
  {
    ReplaceAppend(a, b, '&', "&amp;");
    var a1, b1 := ReplaceChar(a, '&', "&amp;"), ReplaceChar(b, '&', "&amp;");
    ReplaceAppend(a1, b1, '<', "&lt;");
    var a2, b2 := ReplaceChar(a1, '<', "&lt;"), ReplaceChar(b1, '<', "&lt;");
    ReplaceAppend(a2, b2, '>', "&gt;");
    var a3, b3 := ReplaceChar(a2, '>', "&gt;"), ReplaceChar(b2, '>', "&gt;");
    ReplaceAppend(a3, b3, '"', "&quot;");
    var a4, b4 := ReplaceChar(a3, '"', "&quot;"), ReplaceChar(b3, '"', "&quot;");
    ReplaceAppend(a4, b4, '\'', "&#039;");
  }

  lemma ReplaceOne(x: char, c: char, rep: string)
    ensures ReplaceChar([x], c, rep) == if x == c then rep else [x]
  {
    assert [x][1..] == [];
  }

  /** Each replacement either turns the character into its entity, which no later step touches, or leaves it alone. */
  lemma ChainChar(c: char)
    ensures Chain([c]) == EscapeChar(c)
  {
    ReplaceOne(c, '&', "&amp;");
    ReplaceOne(c, '<', "&lt;");
    ReplaceOne(c, '>', "&gt;");
    ReplaceOne(c, '"', "&quot;");
    ReplaceOne(c, '\'', "&#039;");
    if c == '&' {
      assert '<' !in "&amp;" && '>' !in "&amp;" && '"' !in "&amp;" && '\'' !in "&amp;";
    } else if c == '<' {
      assert '>' !in "&lt;" && '"' !in "&lt;" && '\'' !in "&lt;";
    } else if c == '>' {
      assert '"' !in "&gt;" && '\'' !in "&gt;";
    } else if c == '"' {
      assert '\'' !in "&quot;";
    }
  }

  /** The chain of five replacements escapes each character on its own: no entity is rewritten twice. */
  lemma {:induction false} EscapeHtmlIsPerChar(s: string)
    ensures EscapeHtml(s) == EscapeEach(s)
  {
    if s != [] {
      ChainIsPerChar(s);
    }
  }

  lemma {:induction false} ChainIsPerChar(s: string)
    ensures Chain(s) == EscapeEach(s)
  {
    if s != [] {
      assert s == [s[0]] + s[1..];
      ChainAppend([s[0]], s[1..]);
      ChainChar(s[0]);
      ChainIsPerChar(s[1..]);
    }
  }

  /** The escaped text holds no `<`, `>`, `"` or `'`. */
  lemma {:induction false} EscapedHasNoMarkup(s: string)
    ensures forall i :: 0 <= i < |EscapeHtml(s)| ==> EscapeHtml(s)[i] !in "<>\"'"
  {
    EscapeHtmlIsPerChar(s);
    EachHasNoMarkup(s);
  }

  lemma {:induction false} EachHasNoMarkup(s: string)
    ensures forall i :: 0 <= i < |EscapeEach(s)| ==> EscapeEach(s)[i] !in "<>\"'"
  {
    if s != [] {
      EachHasNoMarkup(s[1..]);
      var e := EscapeChar(s[0]);
      assert forall i :: 0 <= i < |e| ==> e[i] !in "<>\"'";
    }
  }

  /** Text with none of the five characters comes back unchanged. */
  lemma {:induction false} EscapeHtmlPlain(s: string)
    requires forall i :: 0 <= i < |s| ==> !IsHtmlSpecial(s[i])
    ensures EscapeHtml(s) == s
  {
    EscapeHtmlIsPerChar(s);
    EachPlain(s);
  }

  lemma {:induction false} EachPlain(s: string)
    requires forall i :: 0 <= i < |s| ==> !IsHtmlSpecial(s[i])
    ensures EscapeEach(s) == s
  {
    if s != [] {
      EachPlain(s[1..]);
    }
  }

  lemma UnescapeStep(c: char, t: string)
    ensures Unescape(EscapeChar(c) + t) == [c] + Unescape(t)
  {
    var e := EscapeChar(c);
    if IsHtmlSpecial(c) {
      assert (e + t)[..|e|] == e;
      assert (e + t)[|e|..] == t;
      assert (e + t)[1] == e[1];
      if c != '&' { NotPrefixAt(e + t, "&amp;", 1); }
      if c != '<' { NotPrefixAt(e + t, "&lt;", 1); }
      if c != '>' { NotPrefixAt(e + t, "&gt;", 1); }
      if c != '"' { NotPrefixAt(e + t, "&quot;", 1); }
    } else {
      assert (e + t)[0] == c;
      assert (e + t)[1..] == t;
    }
  }

  lemma NotPrefixAt(s: string, p: string, i: nat)
    requires i < |p| && i < |s| && s[i] != p[i]
    ensures !StartsWith(s, p)
  {
  }

  /** Rendering the escaped text shows exactly the original text. */
  lemma {:induction false} UnescapeEscapeHtml(s: string)
    ensures Unescape(EscapeHtml(s)) == s
  {
    EscapeHtmlIsPerChar(s);
    UnescapeEach(s);
  }

  lemma {:induction false} UnescapeEach(s: string)
    ensures Unescape(EscapeEach(s)) == s
  {
    if s != [] {
      UnescapeStep(s[0], EscapeEach(s[1..]));
      UnescapeEach(s[1..]);
    }
  }

  // ---------------------------------------------------------------- scan duration

  /** `updateScanDuration`'s whole seconds since the scan started, `Math.floor((now - start) / 1000)`. */
  function ElapsedSeconds(nowMs: int, startMs: int): (d: int)
    ensures d * 1000 <= nowMs - startMs < (d + 1) * 1000
  {
    (nowMs - startMs) / 1000
  }

  /** The three display forms of a duration. */
  datatype Elapsed = Seconds(secs: int) | MinSec(m: nat, s: nat) | HourMinSec(h: nat, m: nat, s: nat)

  /** The number of seconds a display form stands for. */
  function Total(e: Elapsed): int {
    match e
    case Seconds(s) => s
    case MinSec(m, s) => 60 * m + s
    case HourMinSec(h, m, s) => 3600 * h + 60 * m + s
  }

  /**
   * The split `updateScanDuration` makes: under a minute plain seconds,
   * under an hour minutes and seconds, otherwise hours, minutes and seconds.
   */
  function Breakdown(d: int): (e: Elapsed)
    ensures Total(e) == d
    ensures e.Seconds? <==> d < 60
    ensures e.MinSec? <==> 60 <= d < 3600
    ensures e.MinSec? ==> 1 <= e.m < 60 && e.s < 60
    ensures e.HourMinSec? ==> 1 <= e.h && e.m < 60 && e.s < 60
  {
    if d < 60 then Seconds(d)
    else if d < 3600 then MinSec(d / 60, d % 60)
    else
      HoursSplit(d);
      HourMinSec(d / 3600, (d % 3600) / 60, d % 60)
  }

  /** Hours, minutes and seconds of a duration of at least an hour add up to it. */
  lemma HoursSplit(d: int)
    requires d >= 3600
    ensures d / 3600 >= 1 && 0 <= (d % 3600) / 60 < 60 && 0 <= d % 60 < 60
    ensures 3600 * (d / 3600) + 60 * ((d % 3600) / 60) + d % 60 == d
  {
    var h := d / 3600;
    var r := d % 3600;
    var m := r / 60;
    var s := r % 60;
    assert d == 3600 * h + r;
    assert r == 60 * m + s;
    assert d == 60 * (60 * h + m) + s;
    ModSixty(60 * h + m, s);
  }

  lemma ModSixty(k: int, s: int)
    requires 0 <= s < 60
    ensures (60 * k + s) % 60 == s
  {
  }

  /** The text shown: `{s}`, `{m}m {s}` or `{h}h {m}m {s}`. */
  function Format(e: Elapsed): string {
    match e
    case Seconds(s) => IntToString(s)
    case MinSec(m, s) => NatToString(m) + "m " + NatToString(s)
    case HourMinSec(h, m, s) => NatToString(h) + "h " + NatToString(m) + "m " + NatToString(s)
  }

  /** A display form is determined by the seconds it stands for. */
  lemma BreakdownUnique(e: Elapsed)
    requires e.MinSec? ==> 1 <= e.m < 60 && e.s < 60
    requires e.HourMinSec? ==> 1 <= e.h && e.m < 60 && e.s < 60
    requires e.Seconds? ==> e.secs < 60
    ensures Breakdown(Total(e)) == e
  {
    match e
    case Seconds(s) =>
    case MinSec(m, s) =>
      assert (60 * m + s) / 60 == m;
    case HourMinSec(h, m, s) =>
      var d := 3600 * h + 60 * m + s;
      assert d / 3600 == h;
      assert d % 3600 == 60 * m + s;
      assert (60 * m + s) / 60 == m;
  }

  // ---------------------------------------------------------------- localized reasons

  /** The message keys of the `switch` in `getLocalizedErrorMessage`, by the code text of each `case`. */
  const CodeKeys: map<string, string> := map[
    "400" := "errorType_badRequest", "401" := "errorType_unauthorized",
    "403" := "errorType_forbidden", "404" := "errorType_pageNotFound",
    "405" := "errorType_methodNotAllowed", "408" := "errorType_requestTimeout",
    "418" := "errorType_teapot", "429" := "errorType_tooManyRequests",
    "500" := "errorType_serverError", "502" := "errorType_badGateway",
    "503" := "errorType_serviceUnavailable", "504" := "errorType_gatewayTimeout",
    "777" := "errorType_nonStandard777", "468" := "errorType_nonStandard468"]

  /** The keys of `errorMap`, by the exact reason text. */
  const ReasonKeys: map<string, string> := map[
    "Request Timeout" := "errorType_requestTimeout",
    "Site blocks automated access but might be accessible in browser" := "errorType_accessDenied",
    "Site has certificate issues but might be accessible" := "errorType_sslError",
    "net::ERR_NAME_NOT_RESOLVED" := "errorType_dnsError",
    "net::ERR_CONNECTION_REFUSED" := "errorType_connectionError",
    "net::ERR_CONNECTION_TIMED_OUT" := "errorType_requestTimeout",
    "net::ERR_TOO_MANY_REDIRECTS" := "errorType_tooManyRedirects",
    "net::ERR_CERT_AUTHORITY_INVALID" := "errorType_sslError"]

  predicate IsDigit(c: char) {
    '0' <= c <= '9'
  }

  /** The longest prefix of `s` made of digits. */
  function LeadingDigits(s: string): (r: string)
    ensures |r| <= |s| && r == s[..|r|]
    ensures forall i :: 0 <= i < |r| ==> IsDigit(r[i])
    ensures |r| < |s| ==> !IsDigit(s[|r|])
  {
    if s != [] && IsDigit(s[0]) then [s[0]] + LeadingDigits(s[1..]) else []
  }

  /** `s.match(/\d+/)`: the first run of digits, or nothing when `s` has no digit. */
  function DigitRun(s: string): (r: Option<string>)
    ensures r.None? <==> forall i :: 0 <= i < |s| ==> !IsDigit(s[i])
    ensures r.Some? ==> r.value != [] && forall i :: 0 <= i < |r.value| ==> IsDigit(r.value[i])
  {
    if s == [] then None
    else if IsDigit(s[0]) then Some(LeadingDigits(s))
    else
      var r := DigitRun(s[1..]);
      assert forall i :: 1 <= i < |s| ==> s[i] == s[1..][i - 1];
      r
  }

  /**
   * `getLocalizedErrorMessage`. `None` stands for the `TypeError` the code
   * throws when a reason starts with `HTTP Error:` but holds no digit.
   */
  function LocalizedErrorMessage(error: string, msg: Verdicts.I18n): (r: Option<string>)
    ensures r.None? <==> StartsWith(error, "HTTP Error:") && forall i :: 0 <= i < |error| ==> !IsDigit(error[i])
    ensures !StartsWith(error, "HTTP Error:") ==>
      r == Some(if error in ReasonKeys && msg(ReasonKeys[error], "") != "" then msg(ReasonKeys[error], "") else error)
    ensures !StartsWith(error, "HTTP Error:") && error !in ReasonKeys ==> r == Some(error)
  {
    if StartsWith(error, "HTTP Error:") then
      match DigitRun(error)
      case None => None
      case Some(code) => Some(if code in CodeKeys then msg(CodeKeys[code], "") else "HTTP Error: " + code)
    else if error in ReasonKeys && msg(ReasonKeys[error], "") != "" then Some(msg(ReasonKeys[error], ""))
    else Some(error)
  }

  lemma {:induction false} DigitRunSkips(p: string, t: string)
    requires forall i :: 0 <= i < |p| ==> !IsDigit(p[i])
    requires t != [] && IsDigit(t[0])
    ensures DigitRun(p + t) == Some(LeadingDigits(t))
  {
    if p == [] {
      assert p + t == t;
    } else {
      assert (p + t)[0] == p[0];
      assert (p + t)[1..] == p[1..] + t;
      DigitRunSkips(p[1..], t);
    }
  }

  lemma {:induction false} LeadingAllDigits(s: string)
    requires forall i :: 0 <= i < |s| ==> IsDigit(s[i])
    ensures LeadingDigits(s) == s
  {
    if s != [] {
      LeadingAllDigits(s[1..]);
    }
  }

  /**
   * The reason the background gives for an unhandled status, `HTTP Error: N`,
   * is looked up by exactly the decimal text of `N`, and is shown unchanged
   * when no `case` matches.
   */
  lemma HttpErrorMessage(n: nat, msg: Verdicts.I18n)
    ensures LocalizedErrorMessage("HTTP Error: " + NatToString(n), msg)
      == Some(if NatToString(n) in CodeKeys then msg(CodeKeys[NatToString(n)], "") else "HTTP Error: " + NatToString(n))
  {
    var t := NatToString(n);
    var p := "HTTP Error: ";
    assert StartsWith(p + t, "HTTP Error:");
    DigitRunSkips(p, t);
    LeadingAllDigits(t);
  }

  /** A 404 is shown as the "page not found" message. */
  lemma NotFoundMessage(msg: Verdicts.I18n)
    ensures LocalizedErrorMessage("HTTP Error: 404", msg) == Some(msg("errorType_pageNotFound", ""))
  {
    assert NatToString(404) == "404";
    assert "HTTP Error: " + "404" == "HTTP Error: 404";
    assert "404" in CodeKeys && CodeKeys["404"] == "errorType_pageNotFound";
    HttpErrorMessage(404, msg);
  }

  // ---------------------------------------------------------------- results list

  /** The reason tag of a result row: its text, and whether it is the empty-folder tag. */
  datatype ReasonTag = ReasonTag(text: string, emptyFolder: bool)

  /**
   * One `.result-item` row: the id its checkbox carries, its reason tag when
   * it has one, whether its checkbox is checked, whether it carries the
   * `selected` class, and whether it is displayed.
   */
  datatype Row = Row(id: string, tag: Option<ReasonTag>, checked: bool, highlighted: bool, visible: bool)

  /** `applyFilter`'s display rule for a row with a reason tag. */
  predicate Shown(filter: string, tag: ReasonTag) {
    if filter == "all" then true
    else if filter == "empty-folder" then tag.emptyFolder
    else Trim(tag.text) == filter
  }

  /** A row after `applyFilter`: unchecked, not highlighted, and, when it has a tag, displayed by the rule. */
  function Filtered(r: Row, filter: string): Row {
    Row(r.id, r.tag, false, false, if r.tag.Some? then Shown(filter, r.tag.value) else r.visible)
  }

  /** Whether every displayed row is checked (`every` over the displayed checkboxes). */
  predicate AllVisibleChecked(rows: seq<Row>) {
    forall i :: 0 <= i < |rows| && rows[i].visible ==> rows[i].checked
  }

  predicate AnyVisible(rows: seq<Row>) {
    exists i :: 0 <= i < |rows| && rows[i].visible
  }

  /** The ids of the displayed rows among the first `n`. */
  function VisibleIds(rows: seq<Row>, n: nat): set<string>
    requires n <= |rows|
  {
    set k | 0 <= k < n && rows[k].visible :: rows[k].id
  }

  /** A row after the select-all click sets displayed checkboxes to `target`. */
  function Toggled(r: Row, target: bool): Row {
    if r.visible then r.(checked := target, highlighted := target) else r
  }

  /** The select-all button's label key, or nothing when no row is displayed and the button is left alone. */
  function SelectAllLabel(rows: seq<Row>): (r: Option<string>)
    ensures r.None? <==> !AnyVisible(rows)
    ensures r.Some? ==> (r.value == "deselectAll" <==> AllVisibleChecked(rows))
  {
    if !AnyVisible(rows) then None
    else if AllVisibleChecked(rows) then Some("deselectAll")
    else Some("selectAll")
  }

  /** The rows of the invalid-link list and the `selectedBookmarks` set. */
  class ResultList {
    var rows: seq<Row>
    var selected: set<string>

    constructor (rows: seq<Row>)
      ensures this.rows == rows && selected == {}
    {
      this.rows := rows;
      selected := {};
    }

    /** `applyFilter`: the selection is cleared, every checkbox unchecked, and each tagged row shown by the rule. */
    method ApplyFilter(filter: string)
      modifies this
      ensures selected == {}
      ensures |rows| == |old(rows)|
      ensures forall i :: 0 <= i < |rows| ==> rows[i] == Filtered(old(rows)[i], filter)
    {
      selected := {};
      var i := 0;
      while i < |rows|
        invariant 0 <= i <= |rows| == |old(rows)|
        invariant selected == {}
        invariant forall k :: 0 <= k < i ==> rows[k] == Filtered(old(rows)[k], filter)
        invariant forall k :: i <= k < |rows| ==> rows[k] == old(rows)[k]
      {
        rows := rows[i := Filtered(rows[i], filter)];
        i := i + 1;
      }
    }

    /** Whether every displayed row is checked, computed as the click handler's `every`. */
    method AllSelected() returns (all: bool)
      ensures all == AllVisibleChecked(rows)
    {
      all := true;
      var i := 0;
      while i < |rows|
        invariant 0 <= i <= |rows|
        invariant all == forall k :: 0 <= k < i && rows[k].visible ==> rows[k].checked
      {
        if rows[i].visible && !rows[i].checked {
          all := false;
        }
        i := i + 1;
      }
    }

    /**
     * The select-all click: ignored while scanning; otherwise every displayed
     * row is checked, or, when all of them already were, unchecked, and their
     * ids are added to or removed from the selection.
     */
    method SelectAll(scanning: bool)
      modifies this
      ensures scanning ==> rows == old(rows) && selected == old(selected)
      ensures !scanning ==>
        var all := AllVisibleChecked(old(rows));
        && |rows| == |old(rows)|
        && (forall i :: 0 <= i < |rows| ==> rows[i] == Toggled(old(rows)[i], !all))
        && selected == if all then old(selected) - VisibleIds(old(rows), |old(rows)|)
                       else old(selected) + VisibleIds(old(rows), |old(rows)|)
    {
      if scanning {
        return;
      }
      var all := AllSelected();
      var i := 0;
      while i < |rows|
        invariant 0 <= i <= |rows| == |old(rows)|
        invariant forall k :: 0 <= k < i ==> rows[k] == Toggled(old(rows)[k], !all)
        invariant forall k :: i <= k < |rows| ==> rows[k] == old(rows)[k]
        invariant selected == if all then old(selected) - VisibleIds(old(rows), i)
                              else old(selected) + VisibleIds(old(rows), i)
      {
        if rows[i].visible {
          if !all {
            selected := selected + {rows[i].id};
          } else {
            selected := selected - {rows[i].id};
          }
        }
        assert VisibleIds(old(rows), i + 1)
          == VisibleIds(old(rows), i) + (if old(rows)[i].visible then {old(rows)[i].id} else {});
        rows := rows[i := Toggled(rows[i], !all)];
        i := i + 1;
      }
    }
  }

  /** Every tagged row is displayed after the filter exactly when the rule shows it, and none stays checked. */
  lemma FilterShowsMatches(rows: seq<Row>, filter: string, i: nat)
    requires i < |rows| && rows[i].tag.Some?
    ensures Filtered(rows[i], filter).visible <==> Shown(filter, rows[i].tag.value)
    ensures !Filtered(rows[i], filter).checked
  {
  }

  /** Filtering twice by the same filter is filtering once. */
  lemma FilterIdempotent(r: Row, filter: string)
    ensures Filtered(Filtered(r, filter), filter) == Filtered(r, filter)
  {
  }

  /** The select-all click flips whether every displayed row is checked, and so flips the label. */
  lemma SelectAllFlips(rows: seq<Row>, toggled: seq<Row>)
    requires AnyVisible(rows)
    requires |toggled| == |rows|
    requires forall i :: 0 <= i < |rows| ==> toggled[i] == Toggled(rows[i], !AllVisibleChecked(rows))
    ensures AllVisibleChecked(toggled) == !AllVisibleChecked(rows)
    ensures SelectAllLabel(toggled).Some? && SelectAllLabel(rows).Some?
    ensures SelectAllLabel(toggled) != SelectAllLabel(rows)
  {
    var j :| 0 <= j < |rows| && rows[j].visible;
    assert toggled[j].visible;
  }
}
