/**
 * The two URL helpers of the background script, `cleanupUrl` and
 * `isSPAUrl`. Both parse the URL first and fall back to a fixed answer when
 * the parser throws; the parser is a parameter that returns the hash, the
 * path name and the query string of the parsed URL, or `None`.
 *
 * The regular expressions are written out as scans over the text.
 */
module UrlHelpers {
  import opened Wrappers
  import opened Strings

  /** The parts of `new URL(url)` the helpers read. */
  datatype UrlParts = UrlParts(hash: string, pathname: string, search: string)

  type Parser = string -> Option<UrlParts>

  predicate EndsWith(s: string, t: string) {
    |t| <= |s| && s[|s| - |t|..] == t
  }

  // ------------------------------------------------------------ trailing '#'

  /** `url.replace(/#$/, '')`: one trailing `#` is removed. */
  function DropHash(s: string): (r: string)
    ensures EndsWith(s, "#") ==> r + "#" == s
    ensures !EndsWith(s, "#") ==> r == s
  {
    if s != [] && s[|s| - 1] == '#' then s[..|s| - 1] else s
  }

  /** `url.replace(/\/#$/, '/')`: a trailing `/#` becomes `/`. */
  function SlashHashToSlash(s: string): (r: string)
    ensures EndsWith(s, "/#") ==> r + "#" == s && EndsWith(r, "/")
    ensures !EndsWith(s, "/#") ==> r == s
  {
    if |s| >= 2 && s[|s| - 2..] == "/#" then s[..|s| - 1] else s
  }

  // ------------------------------------------------------- repeated slashes

  /** A character other than `:` followed by two slashes starts at `i`: the pattern `([^:]\/)\/+` matches there. */
  predicate RunAt(s: string, i: nat) {
    i + 2 < |s| && s[i] != ':' && s[i + 1] == '/' && s[i + 2] == '/'
  }

  /** The leading slashes of `s` removed. */
  function DropSlashes(s: string): (r: string)
    ensures |r| <= |s|
    ensures r == [] || r[0] != '/'
    ensures RemoveSlashes(r) == RemoveSlashes(s)
  {
    if s != [] && s[0] == '/' then DropSlashes(s[1..]) else s
  }

  /**
   * `url.replace(/([^:]\/)\/+/g, '$1')`: scanning from the left, a
   * character other than `:` followed by a run of two or more slashes keeps
   * a single slash; the scan resumes after the run.
   */
  function Collapse(s: string): (r: string)
    ensures |r| <= |s|
    ensures s != [] ==> r != [] && r[0] == s[0]
    decreases |s|
  {
    if s == [] then []
    else if RunAt(s, 0) then [s[0], '/'] + Collapse(DropSlashes(s[2..]))
    else [s[0]] + Collapse(s[1..])
  }

  /** The text with every slash deleted. */
  function RemoveSlashes(s: string): string {
    if s == [] then [] else (if s[0] == '/' then [] else [s[0]]) + RemoveSlashes(s[1..])
  }

  /** Collapsing only deletes slashes: every other character stays, in order. */
  lemma {:induction false} CollapseKeepsText(s: string)
    ensures RemoveSlashes(Collapse(s)) == RemoveSlashes(s)
    decreases |s|
  {
    if s != [] {
      if RunAt(s, 0) {
        var t := DropSlashes(s[2..]);
        CollapseKeepsText(t);
        RemoveSlashesAppend([s[0], '/'], Collapse(t));
        assert s == s[..2] + s[2..] && s[..2] == [s[0], '/'];
        RemoveSlashesAppend(s[..2], s[2..]);
      } else {
        CollapseKeepsText(s[1..]);
        RemoveSlashesAppend([s[0]], Collapse(s[1..]));
        assert [s[0]][1..] == [];
      }
    }
  }

  lemma {:induction false} RemoveSlashesAppend(a: string, b: string)
    ensures RemoveSlashes(a + b) == RemoveSlashes(a) + RemoveSlashes(b)
  {
    if a != [] {
      assert (a + b)[1..] == a[1..] + b;
      RemoveSlashesAppend(a[1..], b);
    } else {
      assert a + b == b;
    }
  }

  /** After collapsing, a run of two slashes only follows a `:`, as in `https://`. */
  lemma {:induction false} CollapseLeavesNoRun(s: string)
    ensures forall i :: 0 <= i < |Collapse(s)| ==> !RunAt(Collapse(s), i)
    decreases |s|
  {
    if s != [] {
      var r := Collapse(s);
      if RunAt(s, 0) {
        var t := DropSlashes(s[2..]);
        CollapseLeavesNoRun(t);
        var c := Collapse(t);
        assert r == [s[0], '/'] + c;
        forall i | 0 <= i < |r|
          ensures !RunAt(r, i)
        {
          if i >= 2 {
            assert !RunAt(c, i - 2);
          }
        }
      } else {
        CollapseLeavesNoRun(s[1..]);
        var c := Collapse(s[1..]);
        assert r == [s[0]] + c;
        forall i | 0 <= i < |r|
          ensures !RunAt(r, i)
        {
          if i >= 1 {
            assert !RunAt(c, i - 1);
          } else if |s| >= 3 && s[0] != ':' && s[1] == '/' {
            // no run at 0, so `s[2]` is not a slash, and the scan of `s[1..]` keeps `s[1]` and `s[2]`
            assert s[2] != '/';
            assert !RunAt(s[1..], 0);
            assert c == [s[1]] + Collapse(s[2..]);
          }
        }
      }
    }
  }

  /** Text without such a run is left as it is. */
  lemma {:induction false} CollapseClean(s: string)
    requires forall i :: 0 <= i < |s| ==> !RunAt(s, i)
    ensures Collapse(s) == s
    decreases |s|
  {
    if s != [] {
      assert !RunAt(s, 0);
      forall i | 0 <= i < |s[1..]|
        ensures !RunAt(s[1..], i)
      {
        assert !RunAt(s, i + 1);
      }
      CollapseClean(s[1..]);
    }
  }

  /** Collapsing twice is collapsing once. */
  lemma CollapseIdempotent(s: string)
    ensures Collapse(Collapse(s)) == Collapse(s)
  {
    CollapseLeavesNoRun(s);
    CollapseClean(Collapse(s));
  }

  // -------------------------------------------------------------- cleanupUrl

  /** Step 1: with an empty hash, a trailing `#` and then a trailing `/#` are rewritten. */
  function DropHashes(url: string, p: UrlParts): string {
    if p.hash == "#" || p.hash == "" then SlashHashToSlash(DropHash(url)) else url
  }

  /** Step 3's test: no trailing slash, no `.` in the path, no hash and no query. */
  predicate NeedsSlash(u: string, p: UrlParts) {
    !EndsWith(u, "/") && '.' !in p.pathname && p.hash == "" && p.search == ""
  }

  /**
   * `cleanupUrl(url)`: the URL unchanged when it does not parse; otherwise
   * only slashes differ from the text after step 1, no repeated slash is
   * left except after a `:`, and a URL without a dot in its path, a hash
   * or a query ends with a slash.
   */
  function CleanupUrl(url: string, parse: Parser): (r: string)
    ensures parse(url).None? ==> r == url
    ensures parse(url).Some? ==> RemoveSlashes(r) == RemoveSlashes(DropHashes(url, parse(url).value))
    ensures parse(url).Some? ==> forall i :: 0 <= i < |r| ==> !RunAt(r, i)
    ensures (parse(url).Some? && parse(url).value.hash == "" && parse(url).value.search == ""
             && '.' !in parse(url).value.pathname) ==> EndsWith(r, "/")
  {
    match parse(url)
    case None => url
    case Some(p) =>
      var u := DropHashes(url, p);
      var c := Collapse(u);
      CollapseKeepsText(u);
      CollapseLeavesNoRun(u);
      if NeedsSlash(c, p) then
        var r := c + "/";
        RemoveSlashesAppend(c, "/");
        assert RemoveSlashes("/") == [] by { assert "/"[1..] == []; }
        assert forall i :: 0 <= i < |r| ==> !RunAt(r, i) by {
          forall i | 0 <= i < |r|
            ensures !RunAt(r, i)
          {
            if i + 3 < |r| {
              assert !RunAt(c, i);
            }
          }
        }
        r
      else c
  }

  // ---------------------------------------------------------------- isSPAUrl

  /** One of the three route patterns: `/#/`, `/#` or `/!` at the end, or `/!/`. */
  predicate RoutePattern(url: string) {
    Contains(url, "/#/") || EndsWith(url, "/#") || EndsWith(url, "/!") || Contains(url, "/!/")
  }

  /** `isSPAUrl(url)`. */
  function IsSpaUrl(url: string, parse: Parser): (b: bool)
    ensures parse(url).None? ==> !b
    ensures parse(url).Some? ==> (b <==> RoutePattern(url) || (parse(url).value.hash != "" && parse(url).value.hash != "#"))
  {
    match parse(url)
    case None => false
    case Some(p) => RoutePattern(url) || (p.hash != "" && p.hash != "#")
  }

  /** Text that holds `t` between any two parts contains it. */
  lemma {:induction false} ContainsMiddle(a: string, t: string, b: string)
    ensures Contains(a + t + b, t)
    decreases |a|
  {
    if a == [] {
      assert a + t + b == t + b;
    } else {
      assert (a + t + b)[1..] == a[1..] + t + b;
      ContainsMiddle(a[1..], t, b);
    }
  }

  /** Any URL that parses and holds a `/#/` route is taken for a single-page application, whatever its parts. */
  lemma HashRouteIsSpa(base: string, route: string, parse: Parser)
    requires parse(base + "/#/" + route).Some?
    ensures IsSpaUrl(base + "/#/" + route, parse)
  {
    ContainsMiddle(base, "/#/", route);
  }
}
