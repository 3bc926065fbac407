/**
 * `calculateBookmarkStats` of the profile page: the bookmark count, one
 * traversal that fills the `stats` object's folder and link statistics,
 * and the summaries computed after it (collection span, busiest day,
 * duplicate URLs).
 *
 * The traversal touches two independent groups of fields: the folder
 * fields change only at counted folders, the link fields only at checkable
 * bookmarks. Each group is specified as a fold over a reference list, the
 * counted folders in visiting order (`Folders`) and the checkable bookmarks
 * in visiting order (`Links`), and the lemmas state what each fold yields.
 */
module ProfileStats {
  import opened Wrappers
  import opened Strings
  import opened Bookmarks
  import opened Counters
  import opened Profile
  import Scan

  // ------------------------------------------------------------ environment

  /**
   * What the traversal reads from outside the tree: the clock used as the
   * fallback date, the URL parser, and the day key
   * `date.toISOString().split('T')[0]`.
   */
  datatype Env = Env(now: int, parse: UrlParser, dayKey: int -> string)

  /** The largest time value a JavaScript `Date` accepts, in milliseconds. */
  const MaxTime: int := 8_640_000_000_000_000

  /** The date the traversal records: `dateAdded` when truthy and a valid `Date`, otherwise now. */
  function DateOf(n: Node, now: int): int {
    if n.dateAdded != 0 && -MaxTime <= n.dateAdded <= MaxTime then n.dateAdded else now
  }

  // ----------------------------------------------------------- reference lists

  /** A counted folder and the depth at which the traversal meets it. */
  datatype Visit = Visit(folder: Node, depth: nat)

  /** A folder the statistics count: it has children and a truthy, non-reserved id. */
  predicate Counted(n: Node) {
    n.hasChildren && n.id != "" && !IsSpecialFolder(n.id)
  }

  /** The counted folders at or below `n`, in visiting order, `n` at `depth`. */
  function Folders(n: Node, depth: nat): seq<Visit>
    decreases n
  {
    if n.hasChildren then
      (if Counted(n) then [Visit(n, depth)] else []) + FoldersIn(n.children, depth + 1)
    else []
  }

  function FoldersIn(cs: seq<Node>, depth: nat): seq<Visit>
    decreases cs
  {
    if cs == [] then [] else FoldersIn(cs[..|cs| - 1], depth) + Folders(cs[|cs| - 1], depth)
  }

  /** A bookmark whose URL the statistics count. */
  predicate Link(n: Node) {
    n.url != "" && IsCheckable(n.url)
  }

  /** The counted bookmarks at or below `n` in visiting order: a node's children come before its own URL. */
  function Links(n: Node): seq<Node>
    decreases n
  {
    (if n.hasChildren then LinksIn(n.children) else []) + (if Link(n) then [n] else [])
  }

  function LinksIn(cs: seq<Node>): seq<Node>
    decreases cs
  {
    if cs == [] then [] else LinksIn(cs[..|cs| - 1]) + Links(cs[|cs| - 1])
  }

  // -------------------------------------------------------------- folder part

  /** The direct children with a truthy URL (`folderBookmarks`). */
  function DirectBookmarks(cs: seq<Node>): nat {
    if cs == [] then 0
    else DirectBookmarks(cs[..|cs| - 1]) + (if cs[|cs| - 1].url != "" then 1 else 0)
  }

  /** Some direct child without a URL has children (`hasSubfolders`). */
  predicate HasSubfolder(cs: seq<Node>) {
    cs != [] && (HasSubfolder(cs[..|cs| - 1]) || (cs[|cs| - 1].url == "" && cs[|cs| - 1].hasChildren))
  }

  /** The profile's empty-folder rule: no direct bookmark and no direct subfolder. */
  predicate EmptyByRule(n: Node) {
    DirectBookmarks(n.children) == 0 && !HasSubfolder(n.children)
  }

  /** `stats.largestFolder`. */
  datatype Largest = Largest(title: string, count: nat)

  /** The folder fields of `stats`. */
  datatype FolderStats = FolderStats(totalFolders: nat, maxDepth: nat, largestFolder: Largest, emptyFolders: nat)

  const NoFolders: FolderStats := FolderStats(0, 0, Largest("", 0), 0)

  function TitleOr(n: Node): string {
    if n.title != "" then n.title else "Unnamed Folder"
  }

  function Max(a: nat, b: nat): nat { if a >= b then a else b }

  /** What visiting one counted folder does to the folder fields. */
  function FolderStep(f: FolderStats, v: Visit): FolderStats {
    var k := DirectBookmarks(v.folder.children);
    FolderStats(
      f.totalFolders + 1,
      Max(f.maxDepth, v.depth),
      if k > f.largestFolder.count then Largest(TitleOr(v.folder), k) else f.largestFolder,
      f.emptyFolders + (if EmptyByRule(v.folder) then 1 else 0))
  }

  function FoldFolders(f: FolderStats, vs: seq<Visit>): FolderStats {
    if vs == [] then f else FolderStep(FoldFolders(f, vs[..|vs| - 1]), vs[|vs| - 1])
  }

  lemma {:induction false} FoldFoldersAppend(f: FolderStats, a: seq<Visit>, b: seq<Visit>)
    ensures FoldFolders(f, a + b) == FoldFolders(FoldFolders(f, a), b)
    decreases |b|
  {
    if b == [] {
      assert a + b == a;
    } else {
      assert (a + b)[..|a + b| - 1] == a + b[..|b| - 1];
      FoldFoldersAppend(f, a, b[..|b| - 1]);
    }
  }

  /** How many of the visited folders are empty by the profile's rule. */
  function EmptyCount(vs: seq<Visit>): (n: nat)
    ensures n <= |vs|
  {
    if vs == [] then 0 else EmptyCount(vs[..|vs| - 1]) + (if EmptyByRule(vs[|vs| - 1].folder) then 1 else 0)
  }

  /** `totalFolders` counts every visited folder and `emptyFolders` those empty by the direct-children rule. */
  lemma {:induction false} FoldFoldersCounts(f: FolderStats, vs: seq<Visit>)
    ensures FoldFolders(f, vs).totalFolders == f.totalFolders + |vs|
    ensures FoldFolders(f, vs).emptyFolders == f.emptyFolders + EmptyCount(vs)
  {
    if vs != [] {
      FoldFoldersCounts(f, vs[..|vs| - 1]);
    }
  }

  /** `maxDepth` is the greatest depth among the visited folders and the starting value. */
  lemma {:induction false} FoldFoldersDepth(f: FolderStats, vs: seq<Visit>)
    ensures var d := FoldFolders(f, vs).maxDepth;
      && d >= f.maxDepth
      && (forall i :: 0 <= i < |vs| ==> vs[i].depth <= d)
      && (d == f.maxDepth || exists i :: 0 <= i < |vs| && vs[i].depth == d)
  {
    if vs != [] {
      var init := vs[..|vs| - 1];
      FoldFoldersDepth(f, init);
      var d0 := FoldFolders(f, init).maxDepth;
      if d0 != f.maxDepth && vs[|vs| - 1].depth <= d0 {
        var i :| 0 <= i < |init| && init[i].depth == d0;
        assert vs[i] == init[i];
      }
      forall i | 0 <= i < |vs|
        ensures vs[i].depth <= FoldFolders(f, vs).maxDepth
      {
        if i < |init| { assert vs[i] == init[i]; }
      }
    }
  }

  /**
   * `largestFolder` changes only on a strictly greater count, so it ends up
   * as the first visited folder with the greatest number of direct
   * bookmarks, unless none beats the starting record.
   */
  lemma {:induction false} FoldFoldersLargest(f: FolderStats, vs: seq<Visit>)
    ensures var l := FoldFolders(f, vs).largestFolder;
      && l.count >= f.largestFolder.count
      && (forall i :: 0 <= i < |vs| ==> DirectBookmarks(vs[i].folder.children) <= l.count)
      && (l == f.largestFolder ||
          exists i :: 0 <= i < |vs| && l == Largest(TitleOr(vs[i].folder), DirectBookmarks(vs[i].folder.children))
                   && l.count > f.largestFolder.count
                   && forall j :: 0 <= j < i ==> DirectBookmarks(vs[j].folder.children) < l.count)
  {
    if vs != [] {
      var init := vs[..|vs| - 1];
      FoldFoldersLargest(f, init);
      var l0 := FoldFolders(f, init).largestFolder;
      var last := vs[|vs| - 1];
      var k := DirectBookmarks(last.folder.children);
      forall i | 0 <= i < |vs|
        ensures DirectBookmarks(vs[i].folder.children) <= FoldFolders(f, vs).largestFolder.count
      {
        if i < |init| { assert vs[i] == init[i]; }
      }
      if k > l0.count {
        var n := |vs| - 1;
        forall j | 0 <= j < n
          ensures DirectBookmarks(vs[j].folder.children) < k
        {
          assert vs[j] == init[j];
        }
      } else if l0 != f.largestFolder {
        var i :| 0 <= i < |init| && l0 == Largest(TitleOr(init[i].folder), DirectBookmarks(init[i].folder.children))
                 && l0.count > f.largestFolder.count
                 && forall j :: 0 <= j < i ==> DirectBookmarks(init[j].folder.children) < l0.count;
        assert vs[i] == init[i];
        forall j | 0 <= j < i
          ensures DirectBookmarks(vs[j].folder.children) < l0.count
        {
          assert vs[j] == init[j];
        }
      }
    }
  }

  // ---------------------------------------------------------------- link part

  /** `stats.oldestBookmark` / `stats.newestBookmark`, whose date is also `timeStats.oldest` / `newest`. */
  datatype Dated = Dated(url: string, title: string, date: int)

  /** The link fields of `stats`, with the `bookmarksByDate` map. */
  datatype LinkStats = LinkStats(
    oldest: Option<Dated>,
    newest: Option<Dated>,
    bookmarksByDate: Counts<string>,
    domains: Counts<string>,
    uniqueDomains: set<string>,
    https: nat,
    http: nat,
    keywords: Counts<string>,
    urlCounts: Counts<string>)

  const NoLinks: LinkStats := LinkStats(None, None, [], [], {}, 0, 0, [], [])

  /** The index of the first white-space character, or `|s|`. */
  function FirstSpace(s: string): (i: nat)
    ensures i <= |s|
    ensures i < |s| ==> IsSpace(s[i])
    ensures forall j :: 0 <= j < i ==> !IsSpace(s[j])
  {
    if s == [] || IsSpace(s[0]) then 0 else 1 + FirstSpace(s[1..])
  }

  /** `s.split(/\s+/)`: the pieces between runs of white space, with empty pieces at a leading or trailing run. */
  function SplitWs(s: string): (r: seq<string>)
    ensures |r| >= 1
    ensures forall k :: 0 <= k < |r| ==> forall j :: 0 <= j < |r[k]| ==> !IsSpace(r[k][j])
    decreases |s|
  {
    var i := FirstSpace(s);
    if i == |s| then [s]
    else
      var t := TrimStart(s[i..]);
      assert |t| < |s[i..]| by {
        if |t| == |s[i..]| { assert t == s[i..]; }
      }
      [s[..i]] + SplitWs(t)
  }

  /** The words of more than three characters (`word.length > 3`). */
  function LongWords(ws: seq<string>): seq<string> {
    if ws == [] then []
    else LongWords(ws[..|ws| - 1]) + (if |ws[|ws| - 1]| > 3 then [ws[|ws| - 1]] else [])
  }

  /** The keywords a title contributes: its lower-cased words longer than three characters. */
  function TitleKeywords(title: string): seq<string> {
    LongWords(SplitWs(Lower(title)))
  }

  /** The record kept as `oldestBookmark`: replaced by the first bookmark with a strictly earlier date. */
  function Earlier(cur: Option<Dated>, n: Node, d: int): (r: Option<Dated>)
    ensures r.Some?
    ensures r.value.date <= d
    ensures cur.Some? ==> r.value.date <= cur.value.date
  {
    if cur.None? || d < cur.value.date then Some(Dated(n.url, n.title, d)) else cur
  }

  /** The record kept as `newestBookmark`: replaced by the first bookmark with a strictly later date. */
  function Later(cur: Option<Dated>, n: Node, d: int): (r: Option<Dated>)
    ensures r.Some?
    ensures r.value.date >= d
    ensures cur.Some? ==> r.value.date >= cur.value.date
  {
    if cur.None? || d > cur.value.date then Some(Dated(n.url, n.title, d)) else cur
  }

  /** The host name a parsed URL contributes to `domains`. */
  function HostOf(p: Option<UrlParts>): seq<string> {
    if p.Some? then [p.value.hostname] else []
  }

  function HostSet(p: Option<UrlParts>): set<string> {
    if p.Some? then {p.value.hostname} else {}
  }

  /** One when the URL parsed with the given protocol. */
  function ProtocolHit(p: Option<UrlParts>, protocol: string): nat {
    if p.Some? && p.value.protocol == protocol then 1 else 0
  }

  /** The keywords a bookmark contributes: none when its URL does not parse (the `try` block is left early). */
  function KeywordsOf(p: Option<UrlParts>, title: string): seq<string> {
    if p.Some? then TitleKeywords(title) else []
  }

  /** What visiting one counted bookmark does to the link fields. */
  function LinkStep(l: LinkStats, n: Node, env: Env): LinkStats {
    var d := DateOf(n, env.now);
    var p := env.parse(n.url);
    UrlStep(ParsedStep(DateStep(l, n, d, env.dayKey(d)), p, n.title), NormalizeUrl(n.url, env.parse))
  }

  /** The date part of a visit: the oldest and newest records and the per-day counter. */
  function DateStep(l: LinkStats, n: Node, d: int, day: string): LinkStats {
    l.(oldest := Earlier(l.oldest, n, d), newest := Later(l.newest, n, d), bookmarksByDate := Bump(l.bookmarksByDate, day))
  }

  /** The parsed-URL part of a visit: host, protocol and title keywords. */
  function ParsedStep(l: LinkStats, p: Option<UrlParts>, title: string): LinkStats {
    KeywordStep(ProtocolStep(HostStep(l, p), p), p, title)
  }

  function HostStep(l: LinkStats, p: Option<UrlParts>): LinkStats {
    l.(domains := BumpAll(l.domains, HostOf(p)), uniqueDomains := l.uniqueDomains + HostSet(p))
  }

  function ProtocolStep(l: LinkStats, p: Option<UrlParts>): LinkStats {
    l.(https := l.https + ProtocolHit(p, "https:"), http := l.http + ProtocolHit(p, "http:"))
  }

  function KeywordStep(l: LinkStats, p: Option<UrlParts>, title: string): LinkStats {
    l.(keywords := BumpAll(l.keywords, KeywordsOf(p, title)))
  }

  /** The last part of a visit: the normalised URL's counter. */
  function UrlStep(l: LinkStats, u: string): LinkStats {
    l.(urlCounts := Bump(l.urlCounts, u))
  }

  function FoldLinks(l: LinkStats, ns: seq<Node>, env: Env): LinkStats {
    if ns == [] then l else LinkStep(FoldLinks(l, ns[..|ns| - 1], env), ns[|ns| - 1], env)
  }

  lemma {:induction false} FoldLinksAppend(l: LinkStats, a: seq<Node>, b: seq<Node>, env: Env)
    ensures FoldLinks(l, a + b, env) == FoldLinks(FoldLinks(l, a, env), b, env)
    decreases |b|
  {
    if b == [] {
      assert a + b == a;
    } else {
      assert (a + b)[..|a + b| - 1] == a + b[..|b| - 1];
      assert (a + b)[|a + b| - 1] == b[|b| - 1];
      FoldLinksAppend(l, a, b[..|b| - 1], env);
    }
  }

  // -------------------------------------------- what the link fields count

  /** The normalised URLs of the counted bookmarks. */
  function NormalizedUrls(ns: seq<Node>, parse: UrlParser): (r: seq<string>)
    ensures |r| == |ns|
  {
    if ns == [] then [] else NormalizedUrls(ns[..|ns| - 1], parse) + [NormalizeUrl(ns[|ns| - 1].url, parse)]
  }

  /** The host names of the counted bookmarks whose URL parses. */
  function Hosts(ns: seq<Node>, parse: UrlParser): seq<string> {
    if ns == [] then [] else Hosts(ns[..|ns| - 1], parse) + HostOf(parse(ns[|ns| - 1].url))
  }

  /** How many counted bookmarks parse with the given protocol. */
  function WithProtocol(ns: seq<Node>, parse: UrlParser, protocol: string): nat {
    if ns == [] then 0
    else WithProtocol(ns[..|ns| - 1], parse, protocol) + ProtocolHit(parse(ns[|ns| - 1].url), protocol)
  }

  /** The title keywords of the counted bookmarks whose URL parses, in order. */
  function AllKeywords(ns: seq<Node>, parse: UrlParser): seq<string> {
    if ns == [] then []
    else AllKeywords(ns[..|ns| - 1], parse) + KeywordsOf(parse(ns[|ns| - 1].url), ns[|ns| - 1].title)
  }

  /** The day keys of the counted bookmarks' dates. */
  function DayKeys(ns: seq<Node>, env: Env): seq<string> {
    if ns == [] then [] else DayKeys(ns[..|ns| - 1], env) + [env.dayKey(DateOf(ns[|ns| - 1], env.now))]
  }

  /** `urlCounts` counts normalised URLs and `bookmarksByDate` counts day keys. */
  lemma {:induction false} FoldLinksUrlsAndDays(l: LinkStats, ns: seq<Node>, env: Env)
    ensures FoldLinks(l, ns, env).urlCounts == BumpAll(l.urlCounts, NormalizedUrls(ns, env.parse))
    ensures FoldLinks(l, ns, env).bookmarksByDate == BumpAll(l.bookmarksByDate, DayKeys(ns, env))
  {
    if ns != [] {
      FoldLinksUrlsAndDays(l, ns[..|ns| - 1], env);
    }
  }

  /** `domains` counts host names. */
  lemma {:induction false} FoldLinksDomains(l: LinkStats, ns: seq<Node>, env: Env)
    ensures FoldLinks(l, ns, env).domains == BumpAll(l.domains, Hosts(ns, env.parse))
  {
    if ns != [] {
      var init := ns[..|ns| - 1];
      var hs := HostOf(env.parse(ns[|ns| - 1].url));
      FoldLinksDomains(l, init, env);
      BumpAllAppend(l.domains, Hosts(init, env.parse), hs);
    }
  }

  /** The set of host names of the counted bookmarks whose URL parses. */
  function HostNames(ns: seq<Node>, parse: UrlParser): set<string> {
    if ns == [] then {} else HostNames(ns[..|ns| - 1], parse) + HostSet(parse(ns[|ns| - 1].url))
  }

  /** `HostNames` holds exactly the names `Hosts` lists. */
  lemma {:induction false} HostNamesAreHosts(ns: seq<Node>, parse: UrlParser, h: string)
    ensures h in HostNames(ns, parse) <==> h in Hosts(ns, parse)
  {
    if ns != [] {
      HostNamesAreHosts(ns[..|ns| - 1], parse, h);
    }
  }

  /** `uniqueDomains` collects the host names. */
  lemma {:induction false} FoldLinksUniqueDomains(l: LinkStats, ns: seq<Node>, env: Env)
    ensures FoldLinks(l, ns, env).uniqueDomains == l.uniqueDomains + HostNames(ns, env.parse)
  {
    if ns != [] {
      var init := ns[..|ns| - 1];
      FoldLinksUniqueDomains(l, init, env);
      Scan.UnionAssoc(l.uniqueDomains, HostNames(init, env.parse), HostSet(env.parse(ns[|ns| - 1].url)));
    }
  }

  /** The protocol counters count the https and the http URLs. */
  lemma {:induction false} FoldLinksProtocols(l: LinkStats, ns: seq<Node>, env: Env)
    ensures FoldLinks(l, ns, env).https == l.https + WithProtocol(ns, env.parse, "https:")
    ensures FoldLinks(l, ns, env).http == l.http + WithProtocol(ns, env.parse, "http:")
  {
    if ns != [] {
      FoldLinksProtocols(l, ns[..|ns| - 1], env);
    }
  }

  /** `keywords` counts the long title words of every bookmark whose URL parses. */
  lemma {:induction false} FoldLinksKeywords(l: LinkStats, ns: seq<Node>, env: Env)
    ensures FoldLinks(l, ns, env).keywords == BumpAll(l.keywords, AllKeywords(ns, env.parse))
  {
    if ns != [] {
      var init := ns[..|ns| - 1];
      FoldLinksKeywords(l, init, env);
      BumpAllAppend(l.keywords, AllKeywords(init, env.parse),
        KeywordsOf(env.parse(ns[|ns| - 1].url), ns[|ns| - 1].title));
    }
  }

  /** The `oldestBookmark` record after a sequence of bookmarks. */
  function FoldEarlier(cur: Option<Dated>, ns: seq<Node>, now: int): Option<Dated> {
    if ns == [] then cur
    else Earlier(FoldEarlier(cur, ns[..|ns| - 1], now), ns[|ns| - 1], DateOf(ns[|ns| - 1], now))
  }

  /** The `newestBookmark` record after a sequence of bookmarks. */
  function FoldLater(cur: Option<Dated>, ns: seq<Node>, now: int): Option<Dated> {
    if ns == [] then cur
    else Later(FoldLater(cur, ns[..|ns| - 1], now), ns[|ns| - 1], DateOf(ns[|ns| - 1], now))
  }

  lemma {:induction false} FoldLinksRecords(l: LinkStats, ns: seq<Node>, env: Env)
    ensures FoldLinks(l, ns, env).oldest == FoldEarlier(l.oldest, ns, env.now)
    ensures FoldLinks(l, ns, env).newest == FoldLater(l.newest, ns, env.now)
  {
    if ns != [] {
      FoldLinksRecords(l, ns[..|ns| - 1], env);
    }
  }

  /** The record of the `i`-th bookmark. */
  function RecordOf(n: Node, now: int): Dated {
    Dated(n.url, n.title, DateOf(n, now))
  }

  /**
   * Starting from no record, `oldestBookmark` is the first bookmark with
   * the least date, and it is absent exactly when there is no bookmark.
   */
  lemma {:induction false} EarliestIsFirstLeast(ns: seq<Node>, now: int)
    ensures var o := FoldEarlier(None, ns, now);
      && (o.Some? <==> ns != [])
      && (o.Some? ==>
            exists i :: 0 <= i < |ns| && o.value == RecordOf(ns[i], now)
              && (forall j :: 0 <= j < |ns| ==> o.value.date <= DateOf(ns[j], now))
              && (forall j :: 0 <= j < i ==> o.value.date < DateOf(ns[j], now)))
  {
    if ns != [] {
      var init := ns[..|ns| - 1];
      EarliestIsFirstLeast(init, now);
      var o0 := FoldEarlier(None, init, now);
      var d := DateOf(ns[|ns| - 1], now);
      if o0.Some? && d >= o0.value.date {
        var i :| 0 <= i < |init| && o0.value == RecordOf(init[i], now)
          && (forall j :: 0 <= j < |init| ==> o0.value.date <= DateOf(init[j], now))
          && (forall j :: 0 <= j < i ==> o0.value.date < DateOf(init[j], now));
        assert ns[i] == init[i];
        forall j | 0 <= j < |ns|
          ensures o0.value.date <= DateOf(ns[j], now)
        {
          if j < |init| { assert ns[j] == init[j]; }
        }
        forall j | 0 <= j < i
          ensures o0.value.date < DateOf(ns[j], now)
        {
          assert ns[j] == init[j];
        }
      } else {
        forall j | 0 <= j < |ns| - 1
          ensures d < DateOf(ns[j], now)
        {
          assert ns[j] == init[j];
        }
      }
    }
  }

  /** Symmetrically, `newestBookmark` is the first bookmark with the greatest date. */
  lemma {:induction false} LatestIsFirstGreatest(ns: seq<Node>, now: int)
    ensures var o := FoldLater(None, ns, now);
      && (o.Some? <==> ns != [])
      && (o.Some? ==>
            exists i :: 0 <= i < |ns| && o.value == RecordOf(ns[i], now)
              && (forall j :: 0 <= j < |ns| ==> o.value.date >= DateOf(ns[j], now))
              && (forall j :: 0 <= j < i ==> o.value.date > DateOf(ns[j], now)))
  {
    if ns != [] {
      var init := ns[..|ns| - 1];
      LatestIsFirstGreatest(init, now);
      var o0 := FoldLater(None, init, now);
      var d := DateOf(ns[|ns| - 1], now);
      if o0.Some? && d <= o0.value.date {
        var i :| 0 <= i < |init| && o0.value == RecordOf(init[i], now)
          && (forall j :: 0 <= j < |init| ==> o0.value.date >= DateOf(init[j], now))
          && (forall j :: 0 <= j < i ==> o0.value.date > DateOf(init[j], now));
        assert ns[i] == init[i];
        forall j | 0 <= j < |ns|
          ensures o0.value.date >= DateOf(ns[j], now)
        {
          if j < |init| { assert ns[j] == init[j]; }
        }
        forall j | 0 <= j < i
          ensures o0.value.date > DateOf(ns[j], now)
        {
          assert ns[j] == init[j];
        }
      } else {
        forall j | 0 <= j < |ns| - 1
          ensures d > DateOf(ns[j], now)
        {
          assert ns[j] == init[j];
        }
      }
    }
  }

  // ------------------------------------------------------------ the traversal

  /** `title.toLowerCase().split(/\s+/).forEach(...)`: one increment per word longer than three characters. */
  method CountKeywords(keywords: Counts<string>, title: string) returns (r: Counts<string>)
    ensures r == BumpAll(keywords, TitleKeywords(title))
  {
    var words := SplitWs(Lower(title));
    r := keywords;
    for i := 0 to |words|
      invariant r == BumpAll(keywords, LongWords(words[..i]))
    {
      LongWordStep(keywords, words, i);
      if |words[i]| > 3 {
        r := Bump(r, words[i]);
      }
    }
    assert words[..|words|] == words;
  }

  /** One more word bumps its count when it is longer than three characters. */
  lemma LongWordStep(keywords: Counts<string>, words: seq<string>, i: nat)
    requires i < |words|
    ensures BumpAll(keywords, LongWords(words[..i + 1]))
            == if |words[i]| > 3 then Bump(BumpAll(keywords, LongWords(words[..i])), words[i])
               else BumpAll(keywords, LongWords(words[..i]))
  {
    var w := words[i];
    assert words[..i + 1][..i] == words[..i];
    assert LongWords(words[..i + 1]) == LongWords(words[..i]) + (if |w| > 3 then [w] else []);
    if |w| > 3 {
      BumpAllAppend(keywords, LongWords(words[..i]), [w]);
      assert [w][..0] == [];
    } else {
      assert LongWords(words[..i]) + [] == LongWords(words[..i]);
    }
  }

  /** The `stats` object while `traverse` fills it. */
  class StatsCollector {
    var totalFolders: nat
    var maxDepth: nat
    var largestFolder: Largest
    var emptyFolders: nat
    var oldest: Option<Dated>
    var newest: Option<Dated>
    var bookmarksByDate: Counts<string>
    var domains: Counts<string>
    var uniqueDomains: set<string>
    var https: nat
    var http: nat
    var keywords: Counts<string>
    var urlCounts: Counts<string>
    const env: Env

    function FolderPart(): FolderStats
      reads this
    {
      FolderStats(totalFolders, maxDepth, largestFolder, emptyFolders)
    }

    function LinkPart(): LinkStats
      reads this
    {
      LinkStats(oldest, newest, bookmarksByDate, domains, uniqueDomains, https, http, keywords, urlCounts)
    }

    /** The initial `stats` object and an empty `bookmarksByDate`. */
    constructor (env: Env)
      ensures FolderPart() == NoFolders && LinkPart() == NoLinks && this.env == env
    {
      totalFolders, maxDepth, largestFolder, emptyFolders := 0, 0, Largest("", 0), 0;
      oldest, newest, bookmarksByDate := None, None, [];
      domains, uniqueDomains, https, http := [], {}, 0, 0;
      keywords, urlCounts := [], [];
      this.env := env;
    }

    /** The folder branch of `traverse`: count the folder, its direct bookmarks and subfolders. */
    method CountFolder(node: Node, depth: nat)
      requires Counted(node)
      modifies this
      ensures FolderPart() == FolderStep(old(FolderPart()), Visit(node, depth))
      ensures LinkPart() == old(LinkPart())
    {
      totalFolders := totalFolders + 1;
      maxDepth := Max(maxDepth, depth);
      var folderBookmarks := 0;
      var hasSubfolders := false;
      for i := 0 to |node.children|
        invariant folderBookmarks == DirectBookmarks(node.children[..i])
        invariant hasSubfolders == HasSubfolder(node.children[..i])
      {
        var child := node.children[i];
        assert node.children[..i + 1][..i] == node.children[..i];
        if child.url != "" {
          folderBookmarks := folderBookmarks + 1;
        } else if child.hasChildren {
          hasSubfolders := true;
        }
      }
      assert node.children[..|node.children|] == node.children;
      if folderBookmarks > largestFolder.count {
        largestFolder := Largest(TitleOr(node), folderBookmarks);
      }
      if folderBookmarks == 0 && !hasSubfolders {
        emptyFolders := emptyFolders + 1;
      }
    }

    /** The bookmark branch of `traverse` for a URL with no special-protocol prefix. */
    method CountLink(node: Node)
      requires Link(node)
      modifies this
      ensures LinkPart() == LinkStep(old(LinkPart()), node, env)
      ensures FolderPart() == old(FolderPart())
    {
      var d := DateOf(node, env.now);
      CountDate(node, d);
      var p := env.parse(node.url);
      CountParsed(p, node.title);
      CountUrl(NormalizeUrl(node.url, env.parse));
    }

    /** `urlCounts`, keyed by the normalised URL. */
    method CountUrl(u: string)
      modifies this`urlCounts
      ensures LinkPart() == UrlStep(old(LinkPart()), u)
      ensures FolderPart() == old(FolderPart())
    {
      urlCounts := Bump(urlCounts, u);
    }

    /** The oldest and newest records and the per-day counter. */
    method CountDate(node: Node, d: int)
      modifies this`oldest, this`newest, this`bookmarksByDate
      ensures LinkPart() == DateStep(old(LinkPart()), node, d, env.dayKey(d))
      ensures FolderPart() == old(FolderPart())
    {
      if oldest.None? || d < oldest.value.date {
        oldest := Some(Dated(node.url, node.title, d));
      }
      if newest.None? || d > newest.value.date {
        newest := Some(Dated(node.url, node.title, d));
      }
      bookmarksByDate := Bump(bookmarksByDate, env.dayKey(d));
    }

    /** The `try` block over the parsed URL: host, protocol and title keywords. */
    method CountParsed(p: Option<UrlParts>, title: string)
      modifies this`domains, this`uniqueDomains, this`https, this`http, this`keywords
      ensures LinkPart() == ParsedStep(old(LinkPart()), p, title)
      ensures FolderPart() == old(FolderPart())
    {
      CountHost(p);
      CountProtocol(p);
      CountTitle(p, title);
    }

    method CountHost(p: Option<UrlParts>)
      modifies this`domains, this`uniqueDomains
      ensures LinkPart() == HostStep(old(LinkPart()), p)
      ensures FolderPart() == old(FolderPart())
    {
      if p.Some? {
        var h := p.value.hostname;
        assert HostOf(p) == [h] && HostOf(p)[..0] == [];
        assert BumpAll(domains, HostOf(p)) == Bump(domains, h);
        domains := Bump(domains, h);
        uniqueDomains := uniqueDomains + {p.value.hostname};
      } else {
        assert HostOf(p) == [] && HostSet(p) == {};
      }
    }

    method CountProtocol(p: Option<UrlParts>)
      modifies this`https, this`http
      ensures LinkPart() == ProtocolStep(old(LinkPart()), p)
      ensures FolderPart() == old(FolderPart())
    {
      if p.Some? && p.value.protocol == "https:" {
        https := https + 1;
      } else if p.Some? && p.value.protocol == "http:" {
        http := http + 1;
      }
    }

    method CountTitle(p: Option<UrlParts>, title: string)
      modifies this`keywords
      ensures LinkPart() == KeywordStep(old(LinkPart()), p, title)
      ensures FolderPart() == old(FolderPart())
    {
      if p.Some? {
        keywords := CountKeywords(keywords, title);
      }
    }

    /** `traverse(node, depth)`: the folder fields fold over `Folders`, the link fields over `Links`. */
    method Traverse(node: Node, depth: nat)
      modifies this
      ensures FolderPart() == FoldFolders(old(FolderPart()), Folders(node, depth))
      ensures LinkPart() == FoldLinks(old(LinkPart()), Links(node), env)
      decreases node
    {
      ghost var f0, l0 := FolderPart(), LinkPart();
      ghost var ownFolder: seq<Visit> := if Counted(node) then [Visit(node, depth)] else [];
      ghost var inner: seq<Node> := [];
      if node.hasChildren {
        if Counted(node) {
          CountFolder(node, depth);
          assert ownFolder[..0] == [];
        }
        ghost var f1 := FolderPart();
        assert f1 == FoldFolders(f0, ownFolder);
        var i := 0;
        while i < |node.children|
          invariant 0 <= i <= |node.children|
          invariant FolderPart() == FoldFolders(f1, FoldersIn(node.children[..i], depth + 1))
          invariant LinkPart() == FoldLinks(l0, LinksIn(node.children[..i]), env)
        {
          var c := node.children[i];
          Traverse(c, depth + 1);
          assert node.children[..i + 1][..i] == node.children[..i];
          FoldFoldersAppend(f1, FoldersIn(node.children[..i], depth + 1), Folders(c, depth + 1));
          FoldLinksAppend(l0, LinksIn(node.children[..i]), Links(c), env);
          i := i + 1;
        }
        assert node.children[..i] == node.children;
        FoldFoldersAppend(f0, ownFolder, FoldersIn(node.children, depth + 1));
        inner := LinksIn(node.children);
      }
      ghost var l1 := LinkPart();
      if Link(node) {
        CountLink(node);
        FoldLinksAppend(l0, inner, [node], env);
        assert [node][..0] == [];
      } else {
        assert inner + [] == inner;
      }
    }
  }

  // ----------------------------------------------------------- the summaries

  /** `countValidBookmarks`: the loop over the children, recursing into folders. */
  method CountValidBookmarks(node: Node) returns (count: nat)
    ensures count == Scan.CountCheckable(node)
    decreases node
  {
    count := 0;
    if node.hasChildren {
      for i := 0 to |node.children|
        invariant count == Scan.CountIn(node.children[..i])
      {
        var child := node.children[i];
        assert node.children[..i + 1][..i] == node.children[..i];
        if child.url != "" {
          if IsCheckable(child.url) {
            count := count + 1;
          }
        } else {
          var sub := CountValidBookmarks(child);
          count := count + sub;
        }
      }
      assert node.children[..|node.children|] == node.children;
    }
  }

  /** A day in milliseconds. */
  const Day: nat := 86_400_000

  /** `Math.ceil(diff / Day)`. */
  function CeilDays(diff: int): (days: int)
    ensures (days - 1) * Day < diff <= days * Day
  {
    var q := -((-diff) / Day);
    assert (-diff) / Day * Day + (-diff) % Day == -diff;
    q
  }

  /**
   * The busiest day: the first entry of `bookmarksByDate` with the greatest
   * count (a later entry replaces it only with a strictly greater count),
   * or none when no entry has a positive count.
   */
  method PeakDay(byDate: Counts<string>) returns (peakDate: Option<string>, peakCount: nat)
    ensures forall i :: 0 <= i < |byDate| ==> byDate[i].1 <= peakCount
    ensures peakDate.None? <==> peakCount == 0
    ensures peakDate.Some? ==>
      exists i :: 0 <= i < |byDate| && byDate[i] == (peakDate.value, peakCount)
        && forall j :: 0 <= j < i ==> byDate[j].1 < peakCount
  {
    peakDate, peakCount := None, 0;
    for i := 0 to |byDate|
      invariant forall k :: 0 <= k < i ==> byDate[k].1 <= peakCount
      invariant peakDate.None? <==> peakCount == 0
      invariant peakDate.Some? ==>
        exists k :: 0 <= k < i && byDate[k] == (peakDate.value, peakCount)
          && forall j :: 0 <= j < k ==> byDate[j].1 < peakCount
    {
      if byDate[i].1 > peakCount {
        peakDate, peakCount := Some(byDate[i].0), byDate[i].1;
      }
    }
  }

  /** The keys whose count is greater than one. */
  function DuplicateKeys(m: Counts<string>): (r: set<string>)
    ensures forall k :: k in r ==> HasKey(m, k)
  {
    if m == [] then {}
    else
      var init := m[..|m| - 1];
      var r := DuplicateKeys(init) + (if m[|m| - 1].1 > 1 then {m[|m| - 1].0} else {});
      assert forall k :: HasKey(init, k) ==> HasKey(m, k) by {
        forall k | HasKey(init, k) ensures HasKey(m, k) {
          var i :| 0 <= i < |init| && init[i].0 == k;
          assert m[i] == init[i];
        }
      }
      r
  }

  /** The `urlCounts.forEach` loop counting the entries above one. */
  method CountDuplicates(urlCounts: Counts<string>) returns (n: nat)
    requires KeysDistinct(urlCounts)
    ensures n == |DuplicateKeys(urlCounts)|
  {
    n := 0;
    for i := 0 to |urlCounts|
      invariant n == |DuplicateKeys(urlCounts[..i])|
    {
      DuplicateKeysStep(urlCounts, i);
      if urlCounts[i].1 > 1 {
        n := n + 1;
      }
    }
    assert urlCounts[..|urlCounts|] == urlCounts;
  }

  /** One more entry adds one duplicate key exactly when its count is above one. */
  lemma DuplicateKeysStep(m: Counts<string>, i: nat)
    requires KeysDistinct(m) && i < |m|
    ensures |DuplicateKeys(m[..i + 1])| == |DuplicateKeys(m[..i])| + (if m[i].1 > 1 then 1 else 0)
  {
    var prefix := m[..i + 1];
    assert prefix[..i] == m[..i];
    assert !HasKey(m[..i], m[i].0);
  }

  /** With distinct keys, a key is a duplicate exactly when its count exceeds one. */
  lemma {:induction false} DuplicateKeysIffCount(m: Counts<string>, k: string)
    requires KeysDistinct(m)
    ensures k in DuplicateKeys(m) <==> Get(m, k) > 1
  {
    if m != [] {
      var init := m[..|m| - 1];
      DuplicateKeysIffCount(init, k);
    }
  }

  /** A key with a positive count occurs in the counted list. */
  lemma {:induction false} OccursWhenCounted(ks: seq<string>, k: string)
    requires Occurrences(ks, k) > 0
    ensures k in ks
  {
    if ks[|ks| - 1] != k {
      OccursWhenCounted(ks[..|ks| - 1], k);
    }
  }

  /** The duplicate count is the number of normalised URLs that occur more than once. */
  lemma DuplicatesAreRepeatedUrls(us: seq<string>)
    ensures DuplicateKeys(BumpAll([], us)) == set u | u in us && Occurrences(us, u) > 1
  {
    BumpAllDistinct([], us);
    forall u
      ensures u in DuplicateKeys(BumpAll([], us)) <==> u in us && Occurrences(us, u) > 1
    {
      DuplicateKeysIffCount(BumpAll([], us), u);
      GetBumpAll([], us, u);
      if Occurrences(us, u) > 1 { OccursWhenCounted(us, u); }
    }
  }

  /** What `calculateBookmarkStats` returns that this model keeps. */
  datatype BookmarkStats = BookmarkStats(
    totalBookmarks: nat,
    folders: FolderStats,
    links: LinkStats,
    durationDays: nat,
    peakDate: Option<string>,
    peakCount: nat,
    duplicateCount: nat)

  /**
   * `calculateBookmarkStats`: the checkable-bookmark count, the traversal
   * from the root at depth 0, the collection span in whole days rounded
   * up, the busiest day, and the number of normalised URLs seen more than
   * once.
   */
  method CalculateBookmarkStats(root: Node, env: Env) returns (r: BookmarkStats)
    ensures r.totalBookmarks == Scan.CountCheckable(root)
    ensures r.folders == FoldFolders(NoFolders, Folders(root, 0))
    ensures r.links == FoldLinks(NoLinks, Links(root), env)
    ensures r.links.oldest.Some? && r.links.newest.Some? ==>
      var diff := r.links.newest.value.date - r.links.oldest.value.date;
      (r.durationDays - 1) * Day < diff <= r.durationDays * Day
    ensures r.links.oldest.None? ==> r.durationDays == 0
    ensures forall i :: 0 <= i < |r.links.bookmarksByDate| ==> r.links.bookmarksByDate[i].1 <= r.peakCount
    ensures r.peakDate.None? <==> r.peakCount == 0
    ensures r.peakDate.Some? ==> (r.peakDate.value, r.peakCount) in r.links.bookmarksByDate
    ensures var us := NormalizedUrls(Links(root), env.parse);
      r.duplicateCount == |set u | u in us && Occurrences(us, u) > 1|
  {
    var total := CountValidBookmarks(root);
    var stats := new StatsCollector(env);
    stats.Traverse(root, 0);
    var folders, links := stats.FolderPart(), stats.LinkPart();
    var days := 0;
    if links.oldest.Some? && links.newest.Some? {
      days := CeilDays(links.newest.value.date - links.oldest.value.date);
    }
    var peakDate, peakCount := PeakDay(links.bookmarksByDate);
    var dup := CountRepeatedUrls(root, env, links);
    r := BookmarkStats(total, folders, links, days, peakDate, peakCount, dup);
  }

  /** The `urlCounts` loop of `calculateBookmarkStats`: the number of normalised URLs seen more than once. */
  method CountRepeatedUrls(root: Node, env: Env, links: LinkStats) returns (dup: nat)
    requires links == FoldLinks(NoLinks, Links(root), env)
    ensures var us := NormalizedUrls(Links(root), env.parse);
      dup == |set u | u in us && Occurrences(us, u) > 1|
  {
    FoldLinksUrlsAndDays(NoLinks, Links(root), env);
    BumpAllDistinct([], NormalizedUrls(Links(root), env.parse));
    dup := CountDuplicates(links.urlCounts);
    DuplicatesAreRepeatedUrls(NormalizedUrls(Links(root), env.parse));
  }

  /**
   * The two pages disagree on empty folders: a titled folder whose only
   * child is an empty titled folder is empty for the scan page (no
   * bookmark below it) but not for the profile page (it has a subfolder).
   */
  lemma EmptyRulesDiffer()
    ensures var inner := Bookmarks.Node("11", "Inner", "", 0, true, []);
      var outer := Bookmarks.Node("10", "Outer", "", 0, true, [inner]);
      && Scan.EmptyIds(outer) == {"10", "11"}
      && Folders(outer, 1) == [Visit(outer, 1), Visit(inner, 2)]
      && EmptyCount(Folders(outer, 1)) == 1
  {
    var inner := Bookmarks.Node("11", "Inner", "", 0, true, []);
    var outer := Bookmarks.Node("10", "Outer", "", 0, true, [inner]);
    assert [inner][..0] == [];
    assert !Scan.HasBookmarks(inner);
    assert !Scan.HasIn([inner]);
    assert Scan.EmptyIdsIn([inner]) == {"11"};
    assert HasSubfolder([inner]);
    assert FoldersIn([inner], 2) == [Visit(inner, 2)];
    assert Folders(outer, 1) == [Visit(outer, 1), Visit(inner, 2)];
    assert [Visit(outer, 1), Visit(inner, 2)][..1] == [Visit(outer, 1)];
  }
}
