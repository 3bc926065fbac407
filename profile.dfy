/**
 * The profile page's integer scoring and its small traversals: the
 * detailed scores and collector level, the https ratio, URL
 * normalisation, the top keywords, the date range and the bookmarks per
 * year. Floating-point divisions of the page are written as the exact
 * rational floor or rounding they stand for.
 */
module Profile {
  import opened Wrappers
  import opened Strings
  import opened Bookmarks
  import opened Counters
  import opened Sorting

  // ------------------------------------------------------------------ scores

  /**
   * The inputs of `calculateDetailedScores`. `organizationTenths` is the
   * organisation score in tenths (it is rendered with one decimal by
   * `toFixed(1)`), or `None` when that rendering is `"NaN"`.
   */
  datatype ScoreInputs = ScoreInputs(
    totalBookmarks: nat,
    durationDays: nat,
    organizationTenths: Option<nat>,
    https: nat,
    http: nat,
    uniqueDomains: nat)

  /** The component scores; a `None` score or total stands for JavaScript's `NaN`. */
  datatype Scores = Scores(
    bookmarkScore: nat,
    timeScore: nat,
    orgScore: Option<nat>,
    httpsScore: nat,
    domainScore: nat,
    totalScore: Option<nat>)

  /** `https / (https + http || 1)`, as a numerator and a denominator. */
  function HttpsDenominator(https: nat, http: nat): (d: nat)
    ensures https + http == 0 ==> d == 1
    ensures https + http > 0 ==> d == https + http
  {
    if https + http == 0 then 1 else https + http
  }

  function DetailedScores(s: ScoreInputs): (r: Scores)
    ensures r.bookmarkScore * 100 <= s.totalBookmarks < (r.bookmarkScore + 1) * 100
    ensures r.timeScore * 30 <= s.durationDays < (r.timeScore + 1) * 30
    ensures r.domainScore * 50 <= s.uniqueDomains < (r.domainScore + 1) * 50
    ensures r.orgScore.None? <==> s.organizationTenths.None?
    ensures r.orgScore.Some? ==>
      r.orgScore.value * 20 <= s.organizationTenths.value < (r.orgScore.value + 1) * 20
    ensures var d := HttpsDenominator(s.https, s.http);
      r.httpsScore * d <= 5 * s.https < r.httpsScore * d + d
    ensures r.httpsScore <= 5
    ensures s.https + s.http == 0 ==> r.httpsScore == 0
    ensures r.totalScore.None? <==> r.orgScore.None?
    ensures r.totalScore.Some? ==>
      r.totalScore.value == r.bookmarkScore + r.timeScore + r.orgScore.value + r.httpsScore + r.domainScore
  {
    var bookmarkScore := Floor(s.totalBookmarks, 100);
    var timeScore := Floor(s.durationDays, 30);
    var orgScore := (match s.organizationTenths
      case None => None
      case Some(t) => Some(Floor(t, 20)));
    var httpsScore := HttpsScore(s.https, s.http);
    var domainScore := Floor(s.uniqueDomains, 50);
    Scores(bookmarkScore, timeScore, orgScore, httpsScore, domainScore,
      match orgScore
      case None => None
      case Some(o) => Some(bookmarkScore + timeScore + o + httpsScore + domainScore))
  }

  /** `Math.floor(a / b)` for naturals. */
  function Floor(a: nat, b: nat): (q: nat)
    requires b > 0
    ensures q * b <= a < q * b + b
  {
    var q := a / b;
    assert q * b + a % b == a;
    q
  }

  /** `Math.floor(httpsRatio * 5)`, with the ratio kept exact. */
  function HttpsScore(https: nat, http: nat): (q: nat)
    ensures var d := HttpsDenominator(https, http);
      q * d <= 5 * https < q * d + d
    ensures q <= 5
  {
    FifthsAtMostFive(https, HttpsDenominator(https, http));
    Floor(5 * https, HttpsDenominator(https, http))
  }

  // ----------------------------------------------------------- collector level

  function Pow2(k: nat): (r: nat)
    ensures r >= 1
  {
    if k == 0 then 1 else 2 * Pow2(k - 1)
  }

  /** The score the tooltip shows for level `l`: `Math.pow(2, l - 1) + 15`. */
  function Threshold(l: nat): nat
    requires l >= 1
  {
    Pow2(l - 1) + 15
  }

  /** `calculateCollectorLevel`: a ladder of thresholds; a `NaN` total fails every test. */
  function CollectorLevel(total: Option<nat>): (l: nat)
    ensures 1 <= l <= 10
    ensures total.None? ==> l == 1
  {
    match total
    case None => 1
    case Some(t) =>
      if t >= 527 then 10
      else if t >= 271 then 9
      else if t >= 143 then 8
      else if t >= 79 then 7
      else if t >= 47 then 6
      else if t >= 31 then 5
      else if t >= 23 then 4
      else if t >= 19 then 3
      else if t >= 17 then 2
      else if t >= 16 then 1
      else 1
  }

  /** A greater total never gives a lower level. */
  lemma LevelMonotone(a: nat, b: nat)
    requires a <= b
    ensures CollectorLevel(Some(a)) <= CollectorLevel(Some(b))
  {
  }

  /** The ladder is the tooltip's formula: level `l >= 2` is reached exactly from `2^(l-1) + 15` on. */
  lemma LevelThresholds(l: nat, t: nat)
    requires 2 <= l <= 10
    ensures CollectorLevel(Some(t)) >= l <==> t >= Threshold(l)
  {
    assert Pow2(1) == 2 && Pow2(2) == 4 && Pow2(3) == 8 && Pow2(4) == 16 && Pow2(5) == 32;
    assert Pow2(6) == 64 && Pow2(7) == 128 && Pow2(8) == 256 && Pow2(9) == 512;
  }

  // ---------------------------------------------------------------- https ratio

  /**
   * `calculateHttpsRatio`: the https share as a whole percentage,
   * `Math.round` rounding halves up, or 0 when no http(s) bookmark was seen.
   */
  function HttpsRatio(https: nat, http: nat): (r: nat)
    ensures https + http == 0 ==> r == 0
    ensures r <= 100
    ensures https + http > 0 ==>
      2 * r * (https + http) <= 200 * https + (https + http) < 2 * (r + 1) * (https + http)
  {
    var total := https + http;
    if total > 0 then
      RoundedShare(https, total);
      (200 * https + total) / (2 * total)
    else 0
  }

  /** Division facts behind `HttpsRatio`, kept apart so the solver sees one product at a time. */
  lemma RoundedShare(part: nat, total: nat)
    requires 0 < total && part <= total
    ensures var q := (200 * part + total) / (2 * total);
      q <= 100 && 2 * q * total <= 200 * part + total < 2 * (q + 1) * total
  {
    var a, b := 200 * part + total, 2 * total;
    var q := a / b;
    assert a == q * b + a % b && 0 <= a % b < b;
    assert 2 * q * total == q * b;
    assert 2 * (q + 1) * total == q * b + b;
    if q > 100 {
      MulMonotone(101, q, b);
    }
  }

  lemma MulMonotone(a: nat, b: nat, c: nat)
    requires a <= b
    ensures a * c <= b * c
  {
  }

  /** The ratio grows with the https count. */
  lemma HttpsRatioBounds(https: nat, http: nat)
    requires https + http > 0
    ensures http == 0 ==> HttpsRatio(https, http) == 100
    ensures https == 0 ==> HttpsRatio(https, http) == 0
  {
    var t := https + http;
    if http == 0 {
      assert 200 * https + t == 2 * t * 100 + t;
      DivOf(100, 2 * t, t);
    } else if https == 0 {
      DivOf(0, 2 * t, t);
    }
  }

  lemma DivOf(q: nat, b: nat, r: nat)
    requires r < b
    ensures (q * b + r) / b == q
  {
    var d := Floor(q * b + r, b);
    if d > q {
      MulMonotone(q + 1, d, b);
    } else if d < q {
      MulMonotone(d + 1, q, b);
    }
  }

  /** A share of at most the whole, in fifths, is at most five. */
  lemma FifthsAtMostFive(part: nat, whole: nat)
    requires 0 < whole && part <= whole
    ensures Floor(5 * part, whole) <= 5
  {
    if Floor(5 * part, whole) > 5 {
      MulMonotone(6, Floor(5 * part, whole), whole);
    }
  }

  // ------------------------------------------------------------ URL parsing

  /** What `new URL(url)` exposes that the profile page reads. */
  datatype UrlParts = UrlParts(protocol: string, hostname: string, origin: string, pathname: string)

  /** The URL parser: `None` when `new URL` throws. */
  type UrlParser = string -> Option<UrlParts>

  /** `pathname.replace(/\/$/, '')`: one trailing slash removed. */
  function DropTrailingSlash(p: string): (r: string)
    ensures p != [] && p[|p| - 1] == '/' ==> r + "/" == p
    ensures !(p != [] && p[|p| - 1] == '/') ==> r == p
  {
    if p != [] && p[|p| - 1] == '/' then p[..|p| - 1] else p
  }

  /** `normalizeUrl`: origin and path without a trailing slash, or the URL itself when it does not parse. */
  function NormalizeUrl(url: string, parse: UrlParser): (r: string)
    ensures parse(url).None? ==> r == url
    ensures parse(url).Some? ==>
      StartsWith(r, parse(url).value.origin) &&
      r[|parse(url).value.origin|..] == DropTrailingSlash(parse(url).value.pathname)
  {
    match parse(url)
    case None => url
    case Some(u) => u.origin + DropTrailingSlash(u.pathname)
  }

  /**
   * Two URLs with the same origin whose paths differ at most by a trailing
   * slash normalise alike: search and fragment are ignored.
   */
  lemma NormalizeIgnoresSlashAndQuery(a: string, b: string, parse: UrlParser)
    requires parse(a).Some? && parse(b).Some?
    requires parse(a).value.origin == parse(b).value.origin
    requires parse(a).value.pathname == parse(b).value.pathname ||
             parse(a).value.pathname == parse(b).value.pathname + "/"
    requires parse(b).value.pathname == [] || parse(b).value.pathname[|parse(b).value.pathname| - 1] != '/'
    ensures NormalizeUrl(a, parse) == NormalizeUrl(b, parse)
  {
    var pa, pb := parse(a).value.pathname, parse(b).value.pathname;
    if pa == pb + "/" {
      assert pa[..|pa| - 1] == pb;
    }
  }

  // -------------------------------------------------------------- top keywords

  function Min(a: nat, b: nat): nat { if a <= b then a else b }

  /** The keyword entries in `keywords.entries()` sorted by count, greatest first (stably). */
  function ByCountDescending(keywords: Counts<string>): seq<(string, nat)> {
    SortBy(keywords, (e: (string, nat)) => -(e.1 as int))
  }

  /** The first `n` entries of the sorted list (`slice(0, n)`). */
  function TopEntries(keywords: Counts<string>, n: nat): seq<(string, nat)> {
    ByCountDescending(keywords)[..Min(n, |keywords|)]
  }

  function Words(es: seq<(string, nat)>): (r: seq<string>)
    ensures |r| == |es|
    ensures forall i :: 0 <= i < |es| ==> r[i] == es[i].0
  {
    if es == [] then [] else Words(es[..|es| - 1]) + [es[|es| - 1].0]
  }

  /** `getTopKeywords(keywords, n)`: the `n` most frequent words joined by a comma and a space. */
  function TopKeywords(keywords: Counts<string>, n: nat): string {
    Join(Words(TopEntries(keywords, n)), ", ")
  }

  /** At most `n` entries are kept, in non-increasing count order. */
  lemma TopEntriesOrdered(keywords: Counts<string>, n: nat)
    ensures |TopEntries(keywords, n)| == Min(n, |keywords|) <= n
    ensures var top := TopEntries(keywords, n);
      forall i, j :: 0 <= i < j < |top| ==> top[i].1 >= top[j].1
  {
    var key := (e: (string, nat)) => -(e.1 as int);
    SortByCorrect(keywords, key);
    var s := ByCountDescending(keywords);
    var top := TopEntries(keywords, n);
    forall i, j | 0 <= i < j < |top|
      ensures top[i].1 >= top[j].1
    {
      assert top[i] == s[i] && top[j] == s[j];
      assert key(s[i]) <= key(s[j]);
    }
  }

  /** The kept entries come from the map, and none left out counts more than one kept. */
  lemma TopEntriesDominate(keywords: Counts<string>, n: nat)
    ensures multiset(TopEntries(keywords, n)) <= multiset(keywords)
    ensures var top := TopEntries(keywords, n);
      forall e, t :: e in keywords && e !in top && t in top ==> e.1 <= t.1
  {
    var key := (e: (string, nat)) => -(e.1 as int);
    var s := ByCountDescending(keywords);
    SortByCorrect(keywords, key);
    var m := Min(n, |keywords|);
    var top := s[..m];
    assert s == top + s[m..];
    forall e, t | e in keywords && e !in top && t in top
      ensures e.1 <= t.1
    {
      var k :| 0 <= k < |keywords| && keywords[k] == e;
      var j := PermIndex(keywords, s, k);
      var i :| 0 <= i < m && top[i] == t;
      assert j >= m;
      assert key(s[i]) <= key(s[j]);
    }
  }

  // --------------------------------------------------------------- date range

  /** The truthy `dateAdded` values at or below `n`, in traversal order. */
  function Dates(n: Node): seq<int>
    decreases n
  {
    (if n.dateAdded != 0 then [n.dateAdded] else []) + (if n.hasChildren then DatesIn(n.children) else [])
  }

  function DatesIn(cs: seq<Node>): seq<int>
    decreases cs
  {
    if cs == [] then [] else DatesIn(cs[..|cs| - 1]) + Dates(cs[|cs| - 1])
  }

  /** The dates of the first `i + 1` children are those of the first `i` followed by child `i`'s. */
  lemma DatesInStep(cs: seq<Node>, i: nat)
    requires i < |cs|
    ensures DatesIn(cs[..i + 1]) == DatesIn(cs[..i]) + Dates(cs[i])
  {
    assert cs[..i + 1][..i] == cs[..i];
  }

  /** The `oldest` and `newest` locals of `getBookmarkDateRange`, updated by its inner `traverse`. */
  class DateRange {
    var oldest: int
    var newest: int

    /** `oldest = Date.now()`, `newest = 0`. */
    constructor (now: int)
      ensures oldest == now && newest == 0
    {
      oldest := now;
      newest := 0;
    }

    /** One date folded in with `Math.min` and `Math.max`. */
    method Take(d: int)
      modifies this
      ensures oldest == if d < old(oldest) then d else old(oldest)
      ensures newest == if d > old(newest) then d else old(newest)
    {
      if d < oldest { oldest := d; }
      if d > newest { newest := d; }
    }

    /** One child's `traverse`, folding its dates into the range of the dates `seen` so far. */
    method TakeChild(c: Node, ghost seen: seq<int>, ghost o0: int, ghost n0: int)
      requires oldest <= o0 && newest >= n0
      requires forall d :: d in seen ==> oldest <= d <= newest
      requires oldest == o0 || oldest in seen
      requires newest == n0 || newest in seen
      modifies this
      ensures oldest <= o0 && newest >= n0
      ensures forall d :: d in seen + Dates(c) ==> oldest <= d <= newest
      ensures oldest == o0 || oldest in seen + Dates(c)
      ensures newest == n0 || newest in seen + Dates(c)
      decreases c, 2
    {
      Traverse(c);
      forall d | d in seen + Dates(c)
        ensures oldest <= d <= newest
      {
        if d !in seen { assert d in Dates(c); }
      }
    }

    /**
     * `traverse(node)`: afterwards `oldest` is the least and `newest` the
     * greatest of the previous value and every truthy date at or below `node`.
     */
    method Traverse(node: Node)
      modifies this
      ensures oldest <= old(oldest) && newest >= old(newest)
      ensures forall d :: d in Dates(node) ==> oldest <= d <= newest
      ensures oldest == old(oldest) || oldest in Dates(node)
      ensures newest == old(newest) || newest in Dates(node)
      decreases node, 1
    {
      var own: seq<int> := if node.dateAdded != 0 then [node.dateAdded] else [];
      if node.dateAdded != 0 {
        Take(node.dateAdded);
      }
      if node.hasChildren {
        ghost var o0, n0 := old(oldest), old(newest);
        ghost var seen := own;
        var i := 0;
        while i < |node.children|
          invariant 0 <= i <= |node.children|
          invariant seen == own + DatesIn(node.children[..i])
          invariant oldest <= o0 && newest >= n0
          invariant forall d :: d in seen ==> oldest <= d <= newest
          invariant oldest == o0 || oldest in seen
          invariant newest == n0 || newest in seen
        {
          DatesInStep(node.children, i);
          TakeChild(node.children[i], seen, o0, n0);
          ConcatAssoc(own, DatesIn(node.children[..i]), Dates(node.children[i]));
          seen := seen + Dates(node.children[i]);
          i := i + 1;
        }
        assert node.children[..i] == node.children;
        assert Dates(node) == own + DatesIn(node.children);
      } else {
        assert Dates(node) == own;
      }
    }
  }

  /** `getBookmarkDateRange`: the least and greatest truthy date, starting from `now` and 0. */
  method GetBookmarkDateRange(node: Node, now: int) returns (oldest: int, newest: int)
    ensures oldest <= now && newest >= 0
    ensures forall d :: d in Dates(node) ==> oldest <= d <= newest
    ensures oldest == now || oldest in Dates(node)
    ensures newest == 0 || newest in Dates(node)
  {
    var range := new DateRange(now);
    range.Traverse(node);
    oldest, newest := range.oldest, range.newest;
  }

  // ----------------------------------------------------------- bookmarks by year

  /** `new Date(dateAdded).getFullYear()`, which depends on the time zone. */
  type YearOf = int -> int

  function Years(ds: seq<int>, yearOf: YearOf): (r: seq<int>)
    ensures |r| == |ds|
    ensures forall i :: 0 <= i < |ds| ==> r[i] == yearOf(ds[i])
  {
    if ds == [] then [] else Years(ds[..|ds| - 1], yearOf) + [yearOf(ds[|ds| - 1])]
  }

  lemma YearsAppend(a: seq<int>, b: seq<int>, yearOf: YearOf)
    ensures Years(a + b, yearOf) == Years(a, yearOf) + Years(b, yearOf)
  {
  }

  /** Counting two runs of dates one after the other counts their concatenation. */
  lemma CountSplit(base: Counts<int>, a: seq<int>, b: seq<int>, yearOf: YearOf)
    ensures BumpAll(BumpAll(base, Years(a, yearOf)), Years(b, yearOf)) == BumpAll(base, Years(a + b, yearOf))
  {
    YearsAppend(a, b, yearOf);
    BumpAllAppend(base, Years(a, yearOf), Years(b, yearOf));
  }

  /** The `bookmarksByYear` map of `getBookmarksByYear`, filled by its inner `traverse`. */
  class YearCounter {
    var byYear: Counts<int>
    const yearOf: YearOf

    constructor (yearOf: YearOf)
      ensures byYear == [] && this.yearOf == yearOf
    {
      byYear := [];
      this.yearOf := yearOf;
    }

    /** The node's own date, counted when it is truthy. */
    method CountOwn(d: int)
      modifies this
      ensures byYear == BumpAll(old(byYear), Years(if d != 0 then [d] else [], yearOf))
    {
      if d != 0 {
        byYear := Bump(byYear, yearOf(d));
        assert Years([d], yearOf) == [yearOf(d)];
      }
    }

    /** One child's `traverse`, after the dates `done` were counted on top of `base`. */
    method CountChild(c: Node, ghost base: Counts<int>, ghost done: seq<int>)
      requires byYear == BumpAll(base, Years(done, yearOf))
      modifies this
      ensures byYear == BumpAll(base, Years(done + Dates(c), yearOf))
      decreases c, 2
    {
      Traverse(c);
      YearsAppend(done, Dates(c), yearOf);
      BumpAllAppend(base, Years(done, yearOf), Years(Dates(c), yearOf));
    }

    /** `traverse(node)`: one increment per truthy date, in traversal order. */
    method Traverse(node: Node)
      modifies this
      ensures byYear == BumpAll(old(byYear), Years(Dates(node), yearOf))
      decreases node, 1
    {
      ghost var own: seq<int> := if node.dateAdded != 0 then [node.dateAdded] else [];
      ghost var start := byYear;
      CountOwn(node.dateAdded);
      ghost var afterOwn := byYear;
      ghost var rest: seq<int> := [];
      if node.hasChildren {
        var i := 0;
        while i < |node.children|
          invariant 0 <= i <= |node.children|
          invariant byYear == BumpAll(afterOwn, Years(DatesIn(node.children[..i]), yearOf))
        {
          CountChild(node.children[i], afterOwn, DatesIn(node.children[..i]));
          DatesInStep(node.children, i);
          i := i + 1;
        }
        assert node.children[..i] == node.children;
        rest := DatesIn(node.children);
      }
      assert Dates(node) == own + rest;
      CountSplit(start, own, rest, yearOf);
    }
  }

  /** The per-year counts of the dates at or below `root`, sorted by year. */
  function ByYear(root: Node, yearOf: YearOf): Counts<int> {
    SortBy(BumpAll([], Years(Dates(root), yearOf)), (e: (int, nat)) => e.0)
  }

  /** `getBookmarksByYear`: counts the dates per year, then sorts the entries by year. */
  method GetBookmarksByYear(root: Node, yearOf: YearOf) returns (r: Counts<int>)
    ensures r == ByYear(root, yearOf)
  {
    var counter := new YearCounter(yearOf);
    counter.Traverse(root);
    r := SortBy(counter.byYear, (e: (int, nat)) => e.0);
  }

  /** The entries are in ascending year order. */
  lemma ByYearSorted(root: Node, yearOf: YearOf)
    ensures SortedBy(ByYear(root, yearOf), (e: (int, nat)) => e.0)
  {
    SortByCorrect(BumpAll([], Years(Dates(root), yearOf)), (e: (int, nat)) => e.0);
  }

  /** Each entry counts the dates that fall in its year. */
  lemma ByYearCounts(root: Node, yearOf: YearOf, i: nat)
    requires i < |ByYear(root, yearOf)|
    ensures ByYear(root, yearOf)[i].1 == Occurrences(Years(Dates(root), yearOf), ByYear(root, yearOf)[i].0)
  {
    var ys := Years(Dates(root), yearOf);
    SortByCorrect(BumpAll([], ys), (e: (int, nat)) => e.0);
    PermutedCounts(ys, ByYear(root, yearOf), i);
  }

  /** Every year with a date has an entry. */
  lemma ByYearCovers(root: Node, yearOf: YearOf, k: nat)
    requires k < |Dates(root)|
    ensures exists i :: 0 <= i < |ByYear(root, yearOf)| && ByYear(root, yearOf)[i].0 == yearOf(Dates(root)[k])
  {
    var ys := Years(Dates(root), yearOf);
    var b := BumpAll([], ys);
    var r := ByYear(root, yearOf);
    SortByCorrect(b, (e: (int, nat)) => e.0);
    OccurrencesPositive(ys, k);
    GetBumpAll([], ys, ys[k]);
    var j := GetPositiveHasKey(b, ys[k]);
    assert b[j] in multiset(r);
    var i :| 0 <= i < |r| && r[i] == b[j];
  }

  lemma {:induction false} OccurrencesPositive<K>(ks: seq<K>, k: nat)
    requires k < |ks|
    ensures Occurrences(ks, ks[k]) >= 1
  {
    if k < |ks| - 1 {
      OccurrencesPositive(ks[..|ks| - 1], k);
    }
  }

  /** A key with a positive count has an entry. */
  lemma {:induction false} GetPositiveHasKey<K>(m: Counts<K>, k: K) returns (j: nat)
    requires Get(m, k) > 0
    ensures j < |m| && m[j].0 == k
  {
    if m[|m| - 1].0 == k {
      j := |m| - 1;
    } else {
      j := GetPositiveHasKey(m[..|m| - 1], k);
    }
  }
}
