/**
 * The scan page's walker: counting the bookmarks worth checking, the
 * depth-first scan that reports invalid links and empty folders, and the
 * batched dispatch of checks to the background page.
 *
 * The background page's answer to a `checkUrl` message is the oracle
 * `check` (a verdict, or the error the message promise rejects with).
 *
 * `counter.shouldCancel()` is the closure `() => scanCancelled` over the
 * click handler's own `let scanCancelled = false` (index.js:234), which
 * nothing assigns: `cancelScan` sets the module-level variable of the same
 * name (index.js:6). As written every poll answers false; `ScanAsWritten`
 * is that case. The session's `cancelAt` models the cancellation the code
 * evidently intends: the flag is set once and for all after `cancelAt`
 * polls (`None` when it never is). The pause between waves is counted, not
 * waited.
 */
module Scan {
  import opened Wrappers
  import opened Strings
  import opened Bookmarks
  import opened Verdicts

  const Cancelled: string := "Scan cancelled"
  const CheckFailed: string := "Check failed"

  /** `CONFIG.batchSize`. */
  const BatchSize: nat := 30

  /** An entry of `bookmarksToCheck`: a bookmark with the titles of the folders above it. */
  datatype Entry = Entry(id: string, title: string, url: string, path: seq<string>)

  /** An entry of `emptyFolders`. */
  datatype FolderEntry = FolderEntry(id: string, title: string, path: seq<string>)

  /** How a `checkUrl` message settles: the background's verdict, or a thrown error's message. */
  datatype Outcome = Answered(verdict: Verdict) | Threw(message: string)

  /** One element of `results`: the bookmark spread together with its verdict. */
  datatype CheckResult = CheckResult(bookmark: Entry, verdict: Verdict)

  /** A reported invalid link: the bookmark pushed to `invalidBookmarks` and the reason shown beside it. */
  datatype Report = Report(bookmark: Entry, reason: Option<string>)

  /** What `checkBookmarksInBatch` resolves to. */
  datatype BatchResult = BatchResult(results: seq<CheckResult>, totalProcessed: nat, totalInvalid: nat)

  /** The message answered by the background page. */
  type Checker = string -> Outcome

  // ------------------------------------------------------------ one check

  /** The result of one check; a thrown error is turned into an invalid verdict. */
  function ResultOf(b: Entry, o: Outcome): (r: CheckResult)
    ensures r.bookmark == b
    ensures o.Answered? ==> r.verdict == o.verdict
    ensures o.Threw? ==> !r.verdict.isValid && r.verdict.reason.Some? && r.verdict.reason.value != ""
    ensures o.Threw? && o.message != "" ==> r.verdict.reason == Some(o.message)
  {
    match o
    case Answered(v) => CheckResult(b, v)
    case Threw(m) => CheckResult(b, Verdict(false, Some(if m == "" then CheckFailed else m), None, None))
  }

  /** The results of checking every entry of `bs`, in input order. */
  function ResultsFor(bs: seq<Entry>, check: Checker): (r: seq<CheckResult>)
    ensures |r| == |bs|
    ensures forall k :: 0 <= k < |bs| ==> r[k] == ResultOf(bs[k], check(bs[k].url))
  {
    if bs == [] then [] else ResultsFor(bs[..|bs| - 1], check) + [ResultOf(bs[|bs| - 1], check(bs[|bs| - 1].url))]
  }

  /** `results.filter(r => !r.isValid).length`. */
  function CountInvalid(rs: seq<CheckResult>): (n: nat)
    ensures n <= |rs|
    ensures n == 0 <==> forall k :: 0 <= k < |rs| ==> rs[k].verdict.isValid
  {
    if rs == [] then 0
    else CountInvalid(rs[..|rs| - 1]) + (if rs[|rs| - 1].verdict.isValid then 0 else 1)
  }

  /** The invalid results of `rs`, in order, as they are reported. */
  function ReportsOf(rs: seq<CheckResult>): (r: seq<Report>)
    ensures |r| == CountInvalid(rs)
  {
    if rs == [] then []
    else
      var last := rs[|rs| - 1];
      ReportsOf(rs[..|rs| - 1]) + (if last.verdict.isValid then [] else [Report(last.bookmark, last.verdict.reason)])
  }

  /** Every report comes from an invalid result, with that result's bookmark and reason. */
  lemma {:induction false} ReportsAreInvalid(rs: seq<CheckResult>, k: nat)
    requires k < |ReportsOf(rs)|
    ensures exists j :: (0 <= j < |rs| && !rs[j].verdict.isValid
      && ReportsOf(rs)[k] == Report(rs[j].bookmark, rs[j].verdict.reason))
  {
    var init := rs[..|rs| - 1];
    var last := rs[|rs| - 1];
    if k < |ReportsOf(init)| {
      ReportsAreInvalid(init, k);
      var j :| 0 <= j < |init| && !init[j].verdict.isValid
        && ReportsOf(init)[k] == Report(init[j].bookmark, init[j].verdict.reason);
      assert rs[j] == init[j];
    } else {
      assert ReportsOf(rs)[k] == Report(last.bookmark, last.verdict.reason);
    }
  }

  // ------------------------------------------------------------ the tree

  /** The path entry a folder contributes: its title, or the localized "untitled folder". */
  function FolderTitle(n: Node, untitled: string): string {
    if n.title != "" then n.title else untitled
  }

  /** `countCheckableBookmarks`: checkable bookmarks below `n`, folders counted recursively. */
  function CountCheckable(n: Node): nat
    decreases n
  {
    if n.hasChildren then CountIn(n.children) else 0
  }

  function CountIn(cs: seq<Node>): nat
    decreases cs
  {
    if cs == [] then 0
    else
      var c := cs[|cs| - 1];
      CountIn(cs[..|cs| - 1]) + (if c.IsBookmark() then (if IsCheckable(c.url) then 1 else 0) else CountCheckable(c))
  }

  /** The bookmarks a folder with children `cs` and path `cur` collects into `bookmarksToCheck`. */
  function ToCheck(cs: seq<Node>, cur: seq<string>): (r: seq<Entry>)
    ensures |r| <= |cs|
  {
    if cs == [] then []
    else
      var c := cs[|cs| - 1];
      ToCheck(cs[..|cs| - 1], cur) + (if c.IsBookmark() && IsCheckable(c.url) then [Entry(c.id, c.title, c.url, cur)] else [])
  }

  /** Each collected entry is a checkable bookmark child of the folder, filed under the folder's path. */
  lemma {:induction false} ToCheckEntries(cs: seq<Node>, cur: seq<string>, k: nat)
    requires k < |ToCheck(cs, cur)|
    ensures exists j :: (0 <= j < |cs| && cs[j].IsBookmark() && IsCheckable(cs[j].url)
      && ToCheck(cs, cur)[k] == Entry(cs[j].id, cs[j].title, cs[j].url, cur))
  {
    var init := cs[..|cs| - 1];
    if k < |ToCheck(init, cur)| {
      ToCheckEntries(init, cur, k);
      var j :| 0 <= j < |init| && init[j].IsBookmark() && IsCheckable(init[j].url)
        && ToCheck(init, cur)[k] == Entry(init[j].id, init[j].title, init[j].url, cur);
      assert cs[j] == init[j];
    } else {
      assert |cs| - 1 < |cs|;
    }
  }

  /** `scanBookmarks`'s return value: some bookmark, special or not, sits at or below `n`. */
  predicate HasBookmarks(n: Node)
    decreases n
  {
    n.hasChildren && HasIn(n.children)
  }

  predicate HasIn(cs: seq<Node>)
    decreases cs
  {
    cs != [] && (HasIn(cs[..|cs| - 1]) || cs[|cs| - 1].IsBookmark() || HasBookmarks(cs[|cs| - 1]))
  }

  /** A folder the scan lists as empty: no bookmark below it, a truthy id and title, and not reserved. */
  predicate ReportedEmpty(n: Node) {
    n.hasChildren && !HasBookmarks(n) && n.id != "" && n.title != "" && !IsSpecialFolder(n.id)
  }

  /** The ids of the folders at or below `n` that the scan lists as empty. */
  function EmptyIds(n: Node): set<string>
    decreases n
  {
    if n.hasChildren then EmptyIdsIn(n.children) + (if ReportedEmpty(n) then {n.id} else {}) else {}
  }

  function EmptyIdsIn(cs: seq<Node>): set<string>
    decreases cs
  {
    if cs == [] then {}
    else
      var c := cs[|cs| - 1];
      EmptyIdsIn(cs[..|cs| - 1]) + (if c.IsBookmark() then {} else EmptyIds(c))
  }

  /**
   * What scanning a folder contributes, gathered in one pass as the walker
   * does: whether it holds any bookmark, how many checks it sends, the
   * invalid links it reports (its subfolders' first, then its own) and the
   * ids of the folders it lists as empty.
   */
  datatype Summary = Summary(has: bool, count: nat, invalid: seq<Report>, empty: set<string>)

  /** The summary of scanning `n` under `path`. */
  function Walk(n: Node, path: seq<string>, check: Checker, untitled: string): Summary
    decreases n
  {
    if n.hasChildren then
      var cur := path + [FolderTitle(n, untitled)];
      var sub := WalkIn(n.children, cur, check, untitled);
      var own := ToCheck(n.children, cur);
      Summary(
        sub.has,
        sub.count + |own|,
        sub.invalid + ReportsOf(ResultsFor(own, check)),
        sub.empty + (if !sub.has && n.id != "" && n.title != "" && !IsSpecialFolder(n.id) then {n.id} else {}))
    else Summary(false, 0, [], {})
  }

  /** The summary of the loop over `cs`, before the folder's own bookmarks are checked. */
  function WalkIn(cs: seq<Node>, cur: seq<string>, check: Checker, untitled: string): Summary
    decreases cs
  {
    if cs == [] then Summary(false, 0, [], {})
    else
      var s := WalkIn(cs[..|cs| - 1], cur, check, untitled);
      var c := cs[|cs| - 1];
      if c.IsBookmark() then Summary(true, s.count, s.invalid, s.empty)
      else
        var t := Walk(c, cur, check, untitled);
        Summary(s.has || t.has, s.count + t.count, s.invalid + t.invalid, s.empty + t.empty)
  }

  /** The reports a scan of `n` under `path` adds. */
  function InvalidOf(n: Node, path: seq<string>, check: Checker, untitled: string): seq<Report> {
    Walk(n, path, check, untitled).invalid
  }

  // ------------------------------------------------------------ reference definitions

  /** Every bookmark at or below `n`, depth first. */
  function Marks(n: Node): seq<Node>
    decreases n
  {
    if n.hasChildren then MarksIn(n.children) else []
  }

  function MarksIn(cs: seq<Node>): seq<Node>
    decreases cs
  {
    if cs == [] then []
    else
      var c := cs[|cs| - 1];
      MarksIn(cs[..|cs| - 1]) + (if c.IsBookmark() then [c] else Marks(c))
  }

  /** How many nodes of `ms` have a checkable URL. */
  function CheckableCount(ms: seq<Node>): nat {
    if ms == [] then 0
    else CheckableCount(ms[..|ms| - 1]) + (if IsCheckable(ms[|ms| - 1].url) then 1 else 0)
  }

  lemma {:induction false} CheckableCountAppend(a: seq<Node>, b: seq<Node>)
    ensures CheckableCount(a + b) == CheckableCount(a) + CheckableCount(b)
    decreases |b|
  {
    if b == [] {
      assert a + b == a;
    } else {
      assert (a + b)[..|a + b| - 1] == a + b[..|b| - 1];
      CheckableCountAppend(a, b[..|b| - 1]);
    }
  }

  /** `countCheckableBookmarks` counts exactly the checkable bookmarks in the subtree. */
  lemma {:induction false} CountCheckableIsCheckableMarks(n: Node)
    ensures CountCheckable(n) == CheckableCount(Marks(n))
    decreases n
  {
    if n.hasChildren {
      CountInIsCheckableMarks(n.children);
    }
  }

  lemma {:induction false} CountInIsCheckableMarks(cs: seq<Node>)
    ensures CountIn(cs) == CheckableCount(MarksIn(cs))
    decreases cs
  {
    if cs != [] {
      var c := cs[|cs| - 1];
      CountInIsCheckableMarks(cs[..|cs| - 1]);
      if c.IsBookmark() {
        CheckableCountAppend(MarksIn(cs[..|cs| - 1]), [c]);
        assert [c][..0] == [];
      } else {
        CountCheckableIsCheckableMarks(c);
        CheckableCountAppend(MarksIn(cs[..|cs| - 1]), Marks(c));
      }
    }
  }

  /** The scan's return value says whether the subtree holds any bookmark at all. */
  lemma {:induction false} HasBookmarksIffMarks(n: Node)
    ensures HasBookmarks(n) <==> Marks(n) != []
    decreases n
  {
    if n.hasChildren {
      HasInIffMarks(n.children);
    }
  }

  lemma {:induction false} HasInIffMarks(cs: seq<Node>)
    ensures HasIn(cs) <==> MarksIn(cs) != []
    decreases cs
  {
    if cs != [] {
      var c := cs[|cs| - 1];
      HasInIffMarks(cs[..|cs| - 1]);
      if !c.IsBookmark() {
        HasBookmarksIffMarks(c);
      }
    }
  }

  /**
   * The one-pass summary agrees with the separate definitions: the scan's
   * answer is `HasBookmarks`, its checks number `CountCheckable`, and it
   * lists exactly `EmptyIds`.
   */
  lemma {:induction false} WalkAgrees(n: Node, path: seq<string>, check: Checker, untitled: string)
    ensures Walk(n, path, check, untitled).has == HasBookmarks(n)
    ensures Walk(n, path, check, untitled).count == CountCheckable(n)
    ensures Walk(n, path, check, untitled).empty == EmptyIds(n)
    decreases n
  {
    if n.hasChildren {
      var cur := path + [FolderTitle(n, untitled)];
      WalkInAgrees(n.children, cur, check, untitled);
    }
  }

  lemma {:induction false} WalkInAgrees(cs: seq<Node>, cur: seq<string>, check: Checker, untitled: string)
    ensures WalkIn(cs, cur, check, untitled).has == HasIn(cs)
    ensures WalkIn(cs, cur, check, untitled).count + |ToCheck(cs, cur)| == CountIn(cs)
    ensures WalkIn(cs, cur, check, untitled).empty == EmptyIdsIn(cs)
    decreases cs
  {
    if cs != [] {
      WalkInAgrees(cs[..|cs| - 1], cur, check, untitled);
      var c := cs[|cs| - 1];
      if !c.IsBookmark() {
        WalkAgrees(c, cur, check, untitled);
      }
    }
  }

  // ------------------------------------------------------------ the reports, against the tree

  /** Every bookmark at or below `n`, depth first, as an entry filed under the titles of the folders above it. */
  function Located(n: Node, path: seq<string>, untitled: string): seq<Entry>
    decreases n
  {
    if n.hasChildren then LocatedIn(n.children, path + [FolderTitle(n, untitled)], untitled) else []
  }

  function LocatedIn(cs: seq<Node>, cur: seq<string>, untitled: string): seq<Entry>
    decreases cs
  {
    if cs == [] then []
    else
      var c := cs[|cs| - 1];
      LocatedIn(cs[..|cs| - 1], cur, untitled)
        + (if c.IsBookmark() then [Entry(c.id, c.title, c.url, cur)] else Located(c, cur, untitled))
  }

  /** The id, title and URL of each entry, in order. */
  function EntryKeys(es: seq<Entry>): seq<(string, string, string)> {
    if es == [] then [] else EntryKeys(es[..|es| - 1]) + [(es[|es| - 1].id, es[|es| - 1].title, es[|es| - 1].url)]
  }

  /** The id, title and URL of each node, in order. */
  function NodeKeys(ms: seq<Node>): seq<(string, string, string)> {
    if ms == [] then [] else NodeKeys(ms[..|ms| - 1]) + [(ms[|ms| - 1].id, ms[|ms| - 1].title, ms[|ms| - 1].url)]
  }

  lemma {:induction false} EntryKeysAppend(a: seq<Entry>, b: seq<Entry>)
    ensures EntryKeys(a + b) == EntryKeys(a) + EntryKeys(b)
    decreases |b|
  {
    if b == [] {
      assert a + b == a;
    } else {
      assert (a + b)[..|a + b| - 1] == a + b[..|b| - 1];
      EntryKeysAppend(a, b[..|b| - 1]);
    }
  }

  lemma {:induction false} NodeKeysAppend(a: seq<Node>, b: seq<Node>)
    ensures NodeKeys(a + b) == NodeKeys(a) + NodeKeys(b)
    decreases |b|
  {
    if b == [] {
      assert a + b == a;
    } else {
      assert (a + b)[..|a + b| - 1] == a + b[..|b| - 1];
      NodeKeysAppend(a, b[..|b| - 1]);
    }
  }

  /** The located entries are the bookmarks of `Marks`, in the same order and with the same fields. */
  lemma {:induction false} LocatedAreMarks(n: Node, path: seq<string>, untitled: string)
    ensures EntryKeys(Located(n, path, untitled)) == NodeKeys(Marks(n))
    decreases n
  {
    if n.hasChildren {
      LocatedInAreMarks(n.children, path + [FolderTitle(n, untitled)], untitled);
    }
  }

  lemma {:induction false} LocatedInAreMarks(cs: seq<Node>, cur: seq<string>, untitled: string)
    ensures EntryKeys(LocatedIn(cs, cur, untitled)) == NodeKeys(MarksIn(cs))
    decreases cs
  {
    if cs != [] {
      var init, c := cs[..|cs| - 1], cs[|cs| - 1];
      LocatedInAreMarks(init, cur, untitled);
      if c.IsBookmark() {
        EntryKeysAppend(LocatedIn(init, cur, untitled), [Entry(c.id, c.title, c.url, cur)]);
        NodeKeysAppend(MarksIn(init), [c]);
        assert EntryKeys([Entry(c.id, c.title, c.url, cur)]) == [(c.id, c.title, c.url)];
        assert NodeKeys([c]) == [(c.id, c.title, c.url)];
      } else {
        LocatedAreMarks(c, cur, untitled);
        EntryKeysAppend(LocatedIn(init, cur, untitled), Located(c, cur, untitled));
        NodeKeysAppend(MarksIn(init), Marks(c));
      }
    }
  }

  /** The report checking `e` leads to: one for a checkable bookmark whose verdict is invalid, none otherwise. */
  function Flag(e: Entry, check: Checker): seq<Report> {
    var r := ResultOf(e, check(e.url));
    if IsCheckable(e.url) && !r.verdict.isValid then [Report(e, r.verdict.reason)] else []
  }

  /** The reports the entries `es` lead to, in order. */
  function Flagged(es: seq<Entry>, check: Checker): seq<Report> {
    if es == [] then [] else Flagged(es[..|es| - 1], check) + Flag(es[|es| - 1], check)
  }

  lemma {:induction false} FlaggedAppend(a: seq<Entry>, b: seq<Entry>, check: Checker)
    ensures Flagged(a + b, check) == Flagged(a, check) + Flagged(b, check)
    decreases |b|
  {
    if b == [] {
      assert a + b == a;
    } else {
      assert (a + b)[..|a + b| - 1] == a + b[..|b| - 1];
      FlaggedAppend(a, b[..|b| - 1], check);
    }
  }

  /** A report is flagged iff it is the flag of one of the entries. */
  lemma {:induction false} FlaggedMember(es: seq<Entry>, check: Checker, rp: Report)
    ensures rp in Flagged(es, check) <==> exists k :: 0 <= k < |es| && rp in Flag(es[k], check)
  {
    if es != [] {
      var init, last := es[..|es| - 1], es[|es| - 1];
      FlaggedMember(init, check, rp);
      assert Flagged(es, check) == Flagged(init, check) + Flag(last, check);
      if rp in Flagged(init, check) {
        var k :| 0 <= k < |init| && rp in Flag(init[k], check);
        assert es[k] == init[k];
      }
      if exists k :: 0 <= k < |es| && rp in Flag(es[k], check) {
        var k :| 0 <= k < |es| && rp in Flag(es[k], check);
        assert k < |init| ==> init[k] == es[k];
      }
    }
  }

  /** A folder's own reports grow by the flag of its next child when that child is a bookmark. */
  lemma OwnReportsStep(cs: seq<Node>, cur: seq<string>, check: Checker)
    requires cs != []
    ensures
      var c := cs[|cs| - 1];
      ReportsOf(ResultsFor(ToCheck(cs, cur), check))
        == ReportsOf(ResultsFor(ToCheck(cs[..|cs| - 1], cur), check))
          + (if c.IsBookmark() then Flag(Entry(c.id, c.title, c.url, cur), check) else [])
  {
    var c := cs[|cs| - 1];
    var t := ToCheck(cs[..|cs| - 1], cur);
    if c.IsBookmark() && IsCheckable(c.url) {
      var e := Entry(c.id, c.title, c.url, cur);
      assert ToCheck(cs, cur) == t + [e];
      ResultsSnoc(t, e, check);
    } else {
      assert ToCheck(cs, cur) == t;
    }
  }

  lemma ResultsSnoc(t: seq<Entry>, e: Entry, check: Checker)
    requires IsCheckable(e.url)
    ensures ReportsOf(ResultsFor(t + [e], check)) == ReportsOf(ResultsFor(t, check)) + Flag(e, check)
  {
    assert (t + [e])[..|t|] == t;
    var rs := ResultsFor(t, check);
    var x := ResultOf(e, check(e.url));
    assert ResultsFor(t + [e], check) == rs + [x];
    assert (rs + [x])[..|rs|] == rs;
  }

  /**
   * The reports a scan of `n` adds are, in some order, exactly the flags of
   * the bookmarks below it: one per checkable bookmark whose verdict is invalid.
   */
  lemma {:induction false} WalkReports(n: Node, path: seq<string>, check: Checker, untitled: string)
    ensures multiset(Walk(n, path, check, untitled).invalid) == multiset(Flagged(Located(n, path, untitled), check))
    decreases n
  {
    if n.hasChildren {
      WalkInReports(n.children, path + [FolderTitle(n, untitled)], check, untitled);
    }
  }

  lemma {:induction false} WalkInReports(cs: seq<Node>, cur: seq<string>, check: Checker, untitled: string)
    ensures multiset(WalkIn(cs, cur, check, untitled).invalid) + multiset(ReportsOf(ResultsFor(ToCheck(cs, cur), check)))
      == multiset(Flagged(LocatedIn(cs, cur, untitled), check))
    decreases cs
  {
    if cs != [] {
      var init, c := cs[..|cs| - 1], cs[|cs| - 1];
      WalkInReports(init, cur, check, untitled);
      OwnReportsStep(cs, cur, check);
      WalkInStep(cs, cur, check, untitled);
      var below, own := WalkIn(init, cur, check, untitled).invalid, ReportsOf(ResultsFor(ToCheck(init, cur), check));
      var located := LocatedIn(init, cur, untitled);
      if c.IsBookmark() {
        var e := Entry(c.id, c.title, c.url, cur);
        FlaggedAppend(located, [e], check);
        assert Flagged([e], check) == Flag(e, check);
        Regroup(below, own, Flagged(located, check), [], [], Flag(e, check));
      } else {
        WalkReports(c, cur, check, untitled);
        FlaggedAppend(located, Located(c, cur, untitled), check);
        Regroup(below, own, Flagged(located, check), Walk(c, cur, check, untitled).invalid, Flagged(Located(c, cur, untitled), check), []);
      }
    }
  }

  /** Bookkeeping for the step above: reports below, own reports, and the flags they account for. */
  lemma Regroup(below: seq<Report>, own: seq<Report>, flagged: seq<Report>, t: seq<Report>, ft: seq<Report>, add: seq<Report>)
    requires multiset(below) + multiset(own) == multiset(flagged)
    requires multiset(t) == multiset(ft)
    ensures multiset(below + t) + multiset(own + add) == multiset(flagged + ft + add)
    ensures t == [] ==> below + t == below
    ensures add == [] ==> own + add == own
    ensures ft == [] ==> flagged + ft + add == flagged + add
    ensures add == [] ==> flagged + ft + add == flagged + ft
  {
  }

  lemma WalkInStep(cs: seq<Node>, cur: seq<string>, check: Checker, untitled: string)
    requires cs != []
    ensures
      var init, c := cs[..|cs| - 1], cs[|cs| - 1];
      && WalkIn(cs, cur, check, untitled).invalid
        == WalkIn(init, cur, check, untitled).invalid + (if c.IsBookmark() then [] else Walk(c, cur, check, untitled).invalid)
      && LocatedIn(cs, cur, untitled)
        == LocatedIn(init, cur, untitled) + (if c.IsBookmark() then [Entry(c.id, c.title, c.url, cur)] else Located(c, cur, untitled))
  {
    var init := cs[..|cs| - 1];
    if cs[|cs| - 1].IsBookmark() {
      assert WalkIn(init, cur, check, untitled).invalid + [] == WalkIn(init, cur, check, untitled).invalid;
    }
  }

  /**
   * A scan from the root reports, each once, exactly the checkable bookmarks
   * of the tree whose verdict is invalid, each under its folder path and
   * with its verdict's reason.
   */
  lemma ScanReportsInvalidBookmarks(root: Node, check: Checker, untitled: string, rp: Report)
    ensures multiset(InvalidOf(root, [], check, untitled)) == multiset(Flagged(Located(root, [], untitled), check))
    ensures |InvalidOf(root, [], check, untitled)| == |Flagged(Located(root, [], untitled), check)|
    ensures rp in InvalidOf(root, [], check, untitled) <==>
      var es := Located(root, [], untitled);
      exists k :: 0 <= k < |es| && IsCheckable(es[k].url) && !ResultOf(es[k], check(es[k].url)).verdict.isValid
        && rp == Report(es[k], ResultOf(es[k], check(es[k].url)).verdict.reason)
  {
    WalkReports(root, [], check, untitled);
    var a, b := InvalidOf(root, [], check, untitled), Flagged(Located(root, [], untitled), check);
    assert |a| == |multiset(a)| == |multiset(b)| == |b|;
    assert rp in a <==> rp in multiset(a);
    var es := Located(root, [], untitled);
    FlaggedMember(es, check, rp);
    forall k | 0 <= k < |es|
      ensures rp in Flag(es[k], check) <==>
        IsCheckable(es[k].url) && !ResultOf(es[k], check(es[k].url)).verdict.isValid
        && rp == Report(es[k], ResultOf(es[k], check(es[k].url)).verdict.reason)
    {
    }
  }

  /** A folder whose only child is an empty folder is listed, and so is that child. */
  lemma NestedEmptyFolders(inner: Node, outer: Node)
    requires inner == Node("11", "inner", "", 0, true, [])
    requires outer == Node("10", "outer", "", 0, true, [inner])
    ensures EmptyIds(outer) == {"10", "11"}
  {
    assert [inner][..0] == [];
    assert !HasBookmarks(inner);
    assert EmptyIds(inner) == {"11"};
    assert !HasIn([inner]);
    assert EmptyIdsIn([inner]) == {"11"};
  }

  /** A folder holding only a `javascript:` bookmark is not empty, though nothing in it is checked. */
  lemma SpecialBookmarkKeepsFolder(b: Node, folder: Node)
    requires b == Node("21", "bookmarklet", "javascript:void(0)", 0, false, [])
    requires folder == Node("20", "tools", "", 0, true, [b])
    ensures EmptyIds(folder) == {}
    ensures CountCheckable(folder) == 0
  {
    assert [b][..0] == [];
    assert "javascript:" in ValidProtocols && StartsWith(b.url, "javascript:");
    assert !IsCheckable(b.url);
    assert HasIn([b]);
    assert HasBookmarks(folder) && !ReportedEmpty(folder);
    assert EmptyIdsIn([b]) == {};
    assert CountIn([b]) == 0;
  }

  // ------------------------------------------------------------ the session

  /** The ids of the listed folders. */
  function Ids(fs: seq<FolderEntry>): (r: set<string>)
    ensures |r| <= |fs|
  {
    if fs == [] then {} else Ids(fs[..|fs| - 1]) + {fs[|fs| - 1].id}
  }

  lemma {:induction false} InIds(fs: seq<FolderEntry>, id: string)
    ensures id in Ids(fs) <==> exists f :: f in fs && f.id == id
  {
    if fs != [] {
      var init := fs[..|fs| - 1];
      InIds(init, id);
      assert fs == init + [fs[|fs| - 1]];
      if id in Ids(init) {
        var f :| f in init && f.id == id;
        assert f in fs;
      }
    }
  }

  /** No two entries of `fs` share an id. */
  predicate NoDupIds(fs: seq<FolderEntry>) {
    forall i, j :: 0 <= i < j < |fs| ==> fs[i].id != fs[j].id
  }

  /** As many distinct ids as entries: the form of `NoDupIds` the walker keeps. */
  predicate IdsDistinct(fs: seq<FolderEntry>) {
    |Ids(fs)| == |fs|
  }

  lemma {:induction false} NoDupIffDistinct(fs: seq<FolderEntry>)
    ensures NoDupIds(fs) <==> IdsDistinct(fs)
  {
    if fs != [] {
      var init, f := fs[..|fs| - 1], fs[|fs| - 1];
      assert fs == init + [f];
      NoDupIffDistinct(init);
      InIds(init, f.id);
      if f.id in Ids(init) {
        var g :| g in init && g.id == f.id;
        var k :| 0 <= k < |init| && init[k] == g;
        assert fs[k].id == fs[|fs| - 1].id;
        assert !NoDupIds(fs);
      } else {
        AppendKeepsIds(init, f);
      }
    }
  }

  /** Ceiling division: the number of slices of size `bs` that cover `n` items. */
  function Waves(n: nat, bs: nat): nat
    requires bs > 0
  {
    (n + bs - 1) / bs
  }

  lemma MulCancel(a: int, b: int, c: int)
    requires c > 0 && a * c < b * c
    ensures a < b
  {
  }

  lemma MulSucc(a: int, b: int)
    ensures (a + 1) * b == a * b + b
  {
  }

  /** `w` slices cover `n` items and `w - 1` do not exactly when `w` is the ceiling of `n / bs`. */
  lemma WavesExact(n: nat, bs: nat, w: nat)
    requires bs > 0
    requires n <= w * bs
    requires w == 0 || (w - 1) * bs < n
    ensures w == Waves(n, bs)
  {
    WavesAtMost(n, bs, w);
    if w > 0 {
      WavesAtLeast(n, bs, w);
    }
  }

  lemma WavesAtMost(n: nat, bs: nat, w: nat)
    requires bs > 0 && n <= w * bs
    ensures Waves(n, bs) <= w
  {
    var q := (n + bs - 1) / bs;
    assert n + bs - 1 == q * bs + (n + bs - 1) % bs;
    MulSucc(w, bs);
    MulCancel(q, w + 1, bs);
  }

  lemma WavesAtLeast(n: nat, bs: nat, w: nat)
    requires bs > 0 && w > 0 && (w - 1) * bs < n
    ensures w <= Waves(n, bs)
  {
    var q := (n + bs - 1) / bs;
    var r := (n + bs - 1) % bs;
    assert n + bs - 1 == q * bs + r && r < bs;
    MulSucc(w - 1, bs);
    MulSucc(q, bs);
    MulCancel(w, q + 1, bs);
  }

  /**
   * The scan page's state for one scan: the module-level `invalidBookmarks`
   * and `emptyFolders` arrays, the counter's `count`, and how often the
   * cancellation predicate was polled and the walker paused between waves.
   */
  class ScanSession {
    var invalidBookmarks: seq<Report>
    var emptyFolders: seq<FolderEntry>
    var count: nat
    var polls: nat
    var pauses: nat
    const check: Checker
    const cancelAt: Option<nat>
    const untitled: string

    constructor (check: Checker, cancelAt: Option<nat>, untitled: string)
      ensures invalidBookmarks == [] && emptyFolders == [] && count == 0 && polls == 0 && pauses == 0
      ensures this.check == check && this.cancelAt == cancelAt && this.untitled == untitled
    {
      invalidBookmarks := [];
      emptyFolders := [];
      count := 0;
      polls := 0;
      pauses := 0;
      this.check := check;
      this.cancelAt := cancelAt;
      this.untitled := untitled;
    }

    /** The answer of poll number `k`: the flag is set from poll `cancelAt` on. */
    predicate Cancels(k: int) {
      cancelAt.Some? && k >= cancelAt.value
    }

    /** `counter.shouldCancel()`. */
    method ShouldCancel() returns (c: bool)
      modifies this
      ensures c == Cancels(old(polls)) && polls == old(polls) + 1
      ensures invalidBookmarks == old(invalidBookmarks) && emptyFolders == old(emptyFolders)
      ensures count == old(count) && pauses == old(pauses)
    {
      c := cancelAt.Some? && polls >= cancelAt.value;
      polls := polls + 1;
    }

    /** One wave: every entry of `bookmarks[lo..hi]` is checked and counted once, in order. */
    method CheckWave(bookmarks: seq<Entry>, lo: nat, hi: nat, results: seq<CheckResult>) returns (rs: seq<CheckResult>)
      requires lo <= hi <= |bookmarks| && |results| == lo
      requires forall k :: 0 <= k < lo ==> results[k] == ResultOf(bookmarks[k], check(bookmarks[k].url))
      modifies this
      ensures |rs| == hi
      ensures forall k :: 0 <= k < hi ==> rs[k] == ResultOf(bookmarks[k], check(bookmarks[k].url))
      ensures count == old(count) + (hi - lo)
      ensures polls == old(polls) && pauses == old(pauses)
      ensures invalidBookmarks == old(invalidBookmarks) && emptyFolders == old(emptyFolders)
    {
      rs := results;
      var j := lo;
      while j < hi
        invariant lo <= j <= hi && |rs| == j
        invariant forall k :: 0 <= k < j ==> rs[k] == ResultOf(bookmarks[k], check(bookmarks[k].url))
        invariant count == old(count) + (j - lo)
        invariant polls == old(polls) && pauses == old(pauses)
        invariant invalidBookmarks == old(invalidBookmarks) && emptyFolders == old(emptyFolders)
      {
        var outcome := check(bookmarks[j].url);
        count := count + 1;
        rs := rs + [ResultOf(bookmarks[j], outcome)];
        j := j + 1;
      }
    }

    /**
     * `checkBookmarksInBatch`: the entries go out in slices of `batchSize`,
     * with the cancellation predicate polled before each slice and a pause
     * before every slice but the first.
     */
    method CheckBookmarksInBatch(bookmarks: seq<Entry>, batchSize: nat) returns (r: Result<BatchResult, string>)
      requires batchSize > 0
      modifies this
      ensures invalidBookmarks == old(invalidBookmarks) && emptyFolders == old(emptyFolders)
      ensures old(count) <= count <= old(count) + |bookmarks| && old(polls) <= polls
      ensures r.Failure? ==> r.error == Cancelled && old(polls) < polls && Cancels(polls - 1)
      ensures r.Success? ==> polls == old(polls) || !Cancels(polls - 1)
      ensures r.Success? ==>
        && r.value.results == ResultsFor(bookmarks, check)
        && count == old(count) + |bookmarks|
        && r.value.totalProcessed == count
        && r.value.totalInvalid == CountInvalid(r.value.results)
        && polls == old(polls) + Waves(|bookmarks|, batchSize)
        && pauses == old(pauses) + (if bookmarks == [] then 0 else Waves(|bookmarks|, batchSize) - 1)
    {
      var results: seq<CheckResult> := [];
      var i := 0;
      ghost var w: nat := 0;
      while i < |bookmarks|
        invariant i == w * batchSize
        invariant w == 0 || (w - 1) * batchSize < |bookmarks|
        invariant |results| == if i <= |bookmarks| then i else |bookmarks|
        invariant forall k :: 0 <= k < |results| ==> results[k] == ResultOf(bookmarks[k], check(bookmarks[k].url))
        invariant count == old(count) + |results|
        invariant polls == old(polls) + w
        invariant pauses == old(pauses) + (if w == 0 then 0 else w - 1)
        invariant w == 0 || !Cancels(polls - 1)
        invariant invalidBookmarks == old(invalidBookmarks) && emptyFolders == old(emptyFolders)
      {
        if i > 0 {
          pauses := pauses + 1;
        }
        var cancel := ShouldCancel();
        if cancel {
          return Failure(Cancelled);
        }
        var end := if i + batchSize <= |bookmarks| then i + batchSize else |bookmarks|;
        results := CheckWave(bookmarks, i, end, results);
        i := i + batchSize;
        w := w + 1;
      }
      WavesExact(|bookmarks|, batchSize, w);
      assert results == ResultsFor(bookmarks, check);
      r := Success(BatchResult(results, count, CountInvalid(results)));
    }

    /** The `results.forEach` of `scanBookmarks`: each invalid result is reported, in order. */
    method ReportInvalid(results: seq<CheckResult>)
      modifies this
      ensures invalidBookmarks == old(invalidBookmarks) + ReportsOf(results)
      ensures emptyFolders == old(emptyFolders) && count == old(count)
      ensures polls == old(polls) && pauses == old(pauses)
    {
      var j := 0;
      while j < |results|
        invariant 0 <= j <= |results|
        invariant invalidBookmarks == old(invalidBookmarks) + ReportsOf(results[..j])
        invariant emptyFolders == old(emptyFolders) && count == old(count)
        invariant polls == old(polls) && pauses == old(pauses)
      {
        assert results[..j + 1][..j] == results[..j];
        if !results[j].verdict.isValid {
          invalidBookmarks := invalidBookmarks + [Report(results[j].bookmark, results[j].verdict.reason)];
        }
        j := j + 1;
      }
      assert results[..j] == results;
    }

    /** Lists a folder as empty unless an entry with its id is already there. */
    method AddEmptyFolder(f: FolderEntry)
      modifies this
      ensures emptyFolders == if f.id in Ids(old(emptyFolders)) then old(emptyFolders) else old(emptyFolders) + [f]
      ensures Ids(emptyFolders) == Ids(old(emptyFolders)) + {f.id}
      ensures IdsDistinct(old(emptyFolders)) ==> IdsDistinct(emptyFolders)
      ensures invalidBookmarks == old(invalidBookmarks) && count == old(count)
      ensures polls == old(polls) && pauses == old(pauses)
    {
      InIds(emptyFolders, f.id);
      if exists g :: g in emptyFolders && g.id == f.id {
      } else {
        AppendKeepsIds(emptyFolders, f);
        NoDupIffDistinct(emptyFolders);
        NoDupIffDistinct(emptyFolders + [f]);
        emptyFolders := emptyFolders + [f];
      }
    }

    /**
     * `scanBookmarks`: subfolders are scanned as the children are visited,
     * then the folder's own checkable bookmarks go out in batches, then the
     * folder is listed if it holds no bookmark at all.
     */
    method ScanBookmarks(node: Node, path: seq<string>) returns (r: Result<bool, string>)
      modifies this
      decreases node
      ensures old(count) <= count && old(polls) < polls
      ensures IdsDistinct(old(emptyFolders)) ==> IdsDistinct(emptyFolders)
      ensures Cancels(old(polls)) ==>
        r == Failure(Cancelled) && count == old(count)
        && invalidBookmarks == old(invalidBookmarks) && emptyFolders == old(emptyFolders)
      ensures r.Failure? <==> Cancels(polls - 1)
      ensures r.Failure? ==> r.error == Cancelled
      ensures r.Success? ==>
        var w := Walk(node, path, check, untitled);
        && r.value == w.has
        && count == old(count) + w.count
        && invalidBookmarks == old(invalidBookmarks) + w.invalid
        && Ids(emptyFolders) == Ids(old(emptyFolders)) + w.empty
    {
      var cancel := ShouldCancel();
      if cancel {
        return Failure(Cancelled);
      }
      if !node.hasChildren {
        return Success(false);
      }
      var cur := path + [FolderTitle(node, untitled)];
      var sub, bookmarksToCheck := ScanChildren(node.children, cur);
      if sub.Failure? {
        return sub;
      }
      var done := FinishFolder(node, cur, sub.value, bookmarksToCheck);
      if done.Failure? {
        return done;
      }
      FolderStep(node, path, check, untitled);
      ghost var sum := WalkIn(node.children, cur, check, untitled);
      ConcatAssoc(old(invalidBookmarks), sum.invalid, ReportsOf(ResultsFor(bookmarksToCheck, check)));
      UnionAssoc(Ids(old(emptyFolders)), sum.empty,
        if !sum.has && node.id != "" && node.title != "" && !IsSpecialFolder(node.id) then {node.id} else {});
      return sub;
    }

    /**
     * The end of `scanBookmarks` for a folder whose children were scanned:
     * its checkable bookmarks are checked in batches and the invalid ones
     * reported, and the folder is listed as empty when no child holds a
     * bookmark.
     */
    method FinishFolder(node: Node, cur: seq<string>, has: bool, bookmarksToCheck: seq<Entry>) returns (r: Result<bool, string>)
      modifies this
      ensures old(count) <= count && old(polls) <= polls
      ensures IdsDistinct(old(emptyFolders)) ==> IdsDistinct(emptyFolders)
      ensures r.Failure? ==> r.error == Cancelled && old(polls) < polls && Cancels(polls - 1)
      ensures r.Success? ==> r.value == has && (polls == old(polls) || !Cancels(polls - 1))
      ensures r.Success? ==>
        && count == old(count) + |bookmarksToCheck|
        && invalidBookmarks == old(invalidBookmarks) + ReportsOf(ResultsFor(bookmarksToCheck, check))
        && Ids(emptyFolders) == Ids(old(emptyFolders))
             + (if !has && node.id != "" && node.title != "" && !IsSpecialFolder(node.id) then {node.id} else {})
    {
      if |bookmarksToCheck| > 0 {
        var batch := CheckBookmarksInBatch(bookmarksToCheck, BatchSize);
        if batch.Failure? {
          return Failure(batch.error);
        }
        ReportInvalid(batch.value.results);
      } else {
        assert ReportsOf(ResultsFor(bookmarksToCheck, check)) == [];
      }
      if !has && node.id != "" && node.title != "" && !IsSpecialFolder(node.id) {
        AddEmptyFolder(FolderEntry(node.id, node.title, cur));
      }
      return Success(has);
    }

    /**
     * The loop over a folder's children in `scanBookmarks`: it answers
     * whether any child is a bookmark or a folder holding one, and collects
     * the checkable bookmarks, scanning subfolders on the way.
     */
    method ScanChildren(cs: seq<Node>, cur: seq<string>) returns (r: Result<bool, string>, bookmarksToCheck: seq<Entry>)
      modifies this
      decreases cs
      ensures old(count) <= count && old(polls) <= polls
      ensures IdsDistinct(old(emptyFolders)) ==> IdsDistinct(emptyFolders)
      ensures r.Failure? ==> r.error == Cancelled && old(polls) < polls && Cancels(polls - 1)
      ensures r.Success? ==> polls == old(polls) || !Cancels(polls - 1)
      ensures r.Success? ==>
        var w := WalkIn(cs, cur, check, untitled);
        && r.value == w.has
        && bookmarksToCheck == ToCheck(cs, cur)
        && count == old(count) + w.count
        && invalidBookmarks == old(invalidBookmarks) + w.invalid
        && Ids(emptyFolders) == Ids(old(emptyFolders)) + w.empty
    {
      var hasBookmarks := false;
      var hasBookmarksInSubfolders := false;
      bookmarksToCheck := [];
      var i := 0;
      while i < |cs|
        invariant 0 <= i <= |cs|
        invariant (hasBookmarks || hasBookmarksInSubfolders) == WalkIn(cs[..i], cur, check, untitled).has
        invariant bookmarksToCheck == ToCheck(cs[..i], cur)
        invariant count == old(count) + WalkIn(cs[..i], cur, check, untitled).count
        invariant invalidBookmarks == old(invalidBookmarks) + WalkIn(cs[..i], cur, check, untitled).invalid
        invariant IdsDistinct(old(emptyFolders)) ==> IdsDistinct(emptyFolders)
        invariant Ids(emptyFolders) == Ids(old(emptyFolders)) + WalkIn(cs[..i], cur, check, untitled).empty
        invariant old(polls) <= polls
        invariant polls == old(polls) || !Cancels(polls - 1)
      {
        var child := cs[i];
        ChildStep(cs, i, cur, check, untitled);
        ghost var s := WalkIn(cs[..i], cur, check, untitled);
        if child.IsBookmark() {
          hasBookmarks := true;
          if IsCheckable(child.url) {
            bookmarksToCheck := bookmarksToCheck + [Entry(child.id, child.title, child.url, cur)];
          }
        } else {
          ghost var t := Walk(child, cur, check, untitled);
          var sub := ScanBookmarks(child, cur);
          if sub.Failure? {
            return sub, bookmarksToCheck;
          }
          ConcatAssoc(old(invalidBookmarks), s.invalid, t.invalid);
          UnionAssoc(Ids(old(emptyFolders)), s.empty, t.empty);
          hasBookmarksInSubfolders := hasBookmarksInSubfolders || sub.value;
        }
        i := i + 1;
      }
      assert cs[..i] == cs;
      r := Success(hasBookmarks || hasBookmarksInSubfolders);
    }

    /**
     * The scan button's run: the arrays and the counter start empty, the
     * whole tree is scanned from its root, and a scan that is not cancelled
     * lists exactly the empty folders of the tree, each once, counts its
     * checkable bookmarks, and reports, in some order and each once, exactly
     * the checkable bookmarks whose verdict is invalid.
     */
    method StartScan(root: Node) returns (r: Result<bool, string>)
      modifies this
      ensures r.Failure? ==> r.error == Cancelled && old(polls) < polls && Cancels(polls - 1)
      ensures r.Success? ==> polls == old(polls) || !Cancels(polls - 1)
      ensures r.Success? ==>
        && Ids(emptyFolders) == EmptyIds(root)
        && NoDupIds(emptyFolders)
        && count == CountCheckable(root)
        && invalidBookmarks == InvalidOf(root, [], check, untitled)
        && multiset(invalidBookmarks) == multiset(Flagged(Located(root, [], untitled), check))
    {
      invalidBookmarks := [];
      emptyFolders := [];
      count := 0;
      r := ScanBookmarks(root, []);
      NoDupIffDistinct(emptyFolders);
      WalkAgrees(root, [], check, untitled);
      WalkReports(root, [], check, untitled);
    }
  }

  /**
   * The scan as the page runs it: the polled flag is never set, so the scan
   * always runs to its end and reports the whole tree, even after the user
   * clicks cancel.
   */
  method ScanAsWritten(root: Node, check: Checker, untitled: string) returns (s: ScanSession, r: Result<bool, string>)
    ensures r.Success?
    ensures s.count == CountCheckable(root) && Ids(s.emptyFolders) == EmptyIds(root)
    ensures multiset(s.invalidBookmarks) == multiset(Flagged(Located(root, [], untitled), check))
  {
    s := new ScanSession(check, None, untitled);
    r := s.StartScan(root);
  }

  /** What visiting child `i` of a folder adds to each of the walker's accumulations. */
  lemma ChildStep(cs: seq<Node>, i: nat, cur: seq<string>, check: Checker, untitled: string)
    requires i < |cs|
    ensures ToCheck(cs[..i + 1], cur)
      == ToCheck(cs[..i], cur) + (if cs[i].IsBookmark() && IsCheckable(cs[i].url) then [Entry(cs[i].id, cs[i].title, cs[i].url, cur)] else [])
    ensures
      var s := WalkIn(cs[..i], cur, check, untitled);
      var t := Walk(cs[i], cur, check, untitled);
      var n := WalkIn(cs[..i + 1], cur, check, untitled);
      && (cs[i].IsBookmark() ==> n.has && n.count == s.count && n.invalid == s.invalid && n.empty == s.empty)
      && (!cs[i].IsBookmark() ==>
            n.has == (s.has || t.has) && n.count == s.count + t.count
            && n.invalid == s.invalid + t.invalid && n.empty == s.empty + t.empty)
  {
    assert cs[..i + 1][..i] == cs[..i];
  }

  /** What a folder with children adds on top of the loop over its children. */
  lemma FolderStep(n: Node, path: seq<string>, check: Checker, untitled: string)
    requires n.hasChildren
    ensures
      var cur := path + [FolderTitle(n, untitled)];
      var s := WalkIn(n.children, cur, check, untitled);
      var w := Walk(n, path, check, untitled);
      && w.has == s.has
      && w.count == s.count + |ToCheck(n.children, cur)|
      && w.invalid == s.invalid + ReportsOf(ResultsFor(ToCheck(n.children, cur), check))
      && w.empty == if !s.has && n.id != "" && n.title != "" && !IsSpecialFolder(n.id) then s.empty + {n.id} else s.empty
  {
  }

  /** Adding to a set in two steps is adding the union of what is added. */
  lemma UnionAssoc<T>(a: set<T>, b: set<T>, c: set<T>)
    ensures (a + b) + c == a + (b + c)
  {
  }

  lemma AppendKeepsIds(fs: seq<FolderEntry>, f: FolderEntry)
    requires !(exists g :: g in fs && g.id == f.id)
    ensures NoDupIds(fs) ==> NoDupIds(fs + [f])
    ensures Ids(fs + [f]) == Ids(fs) + {f.id}
  {
    assert (fs + [f])[..|fs|] == fs;
    forall i | 0 <= i < |fs|
      ensures fs[i].id != f.id
    {
      assert fs[i] in fs;
    }
  }
}
