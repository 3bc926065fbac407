/**
 * Tag matching on the profile page. `categorizeBookmark` scores one bookmark
 * against every tag's domain and keyword lists; `categorizeDomains` adds the
 * per-domain bookmark counts to the tags whose domain list matches.
 *
 * Scores are kept in thousandths: a domain match is worth 600 (0.6), a
 * keyword match 400 (0.4), and the thresholds 0.02, 0.001 and 0.005 are 20,
 * 1 and 5. The domain and keyword lists themselves are inputs.
 */
module Tags {
  import opened Wrappers
  import opened Strings
  import opened Bookmarks
  import opened Counters
  import opened Profile

  /** The domain and keyword lists of one entry of `TAG_CONFIGS`. */
  datatype TagLists = TagLists(domains: seq<string>, keywords: seq<string>)

  /** One entry of `TAG_CONFIGS`: its key (`TECH`), its `id` (`tech`), its lists and its threshold. */
  datatype TagConfig = TagConfig(key: string, id: string, domains: seq<string>, keywords: seq<string>, threshold: nat)

  const TagKeys: seq<string> := ["TECH", "LEARNING", "TOOLS", "SOCIAL", "NEWS", "SHOPPING", "ENTERTAINMENT"]
  const TagIds: seq<string> := ["tech", "learning", "tools", "social", "news", "shopping", "entertainment"]
  const Thresholds: seq<nat> := [20, 1, 5, 5, 5, 5, 5]
  const DomainScore: nat := 600
  const KeywordScore: nat := 400

  /** `TAG_CONFIGS`, in declaration order, around the given lists. */
  function TagConfigs(lists: seq<TagLists>): (cs: seq<TagConfig>)
    requires |lists| == |TagKeys|
    ensures |cs| == |TagKeys|
    ensures forall i :: 0 <= i < |cs| ==> cs[i].key == TagKeys[i] && cs[i].id == TagIds[i] && cs[i].threshold == Thresholds[i]
  {
    seq(|lists|, i requires 0 <= i < |lists| => TagConfig(TagKeys[i], TagIds[i], lists[i].domains, lists[i].keywords, Thresholds[i]))
  }

  predicate Distinct(s: seq<string>) {
    forall i, j :: 0 <= i < j < |s| ==> s[i] != s[j]
  }

  function Keys(cs: seq<TagConfig>): seq<string> {
    seq(|cs|, i requires 0 <= i < |cs| => cs[i].key)
  }

  function Ids(cs: seq<TagConfig>): seq<string> {
    seq(|cs|, i requires 0 <= i < |cs| => cs[i].id)
  }

  /** Distinct keys, distinct ids, and every threshold positive and no greater than a keyword match. */
  predicate WellFormed(cs: seq<TagConfig>) {
    Distinct(Keys(cs)) && Distinct(Ids(cs)) &&
    forall i :: 0 <= i < |cs| ==> 0 < cs[i].threshold <= KeywordScore
  }

  /** `TAG_CONFIGS` has distinct keys and ids, and every threshold is positive and at most the keyword score 0.4. */
  lemma TagConfigsWellFormed(lists: seq<TagLists>)
    requires |lists| == |TagKeys|
    ensures WellFormed(TagConfigs(lists))
  {
    var cs := TagConfigs(lists);
    assert Keys(cs) == TagKeys;
    assert Ids(cs) == TagIds;
    DistinctBySignature(TagKeys);
    DistinctBySignature(TagIds);
  }

  /** Names that differ in their first letter or their length are different. */
  lemma DistinctBySignature(s: seq<string>)
    requires forall i :: 0 <= i < |s| ==> s[i] != []
    requires forall i, j :: 0 <= i < j < |s| ==> s[i][0] != s[j][0] || |s[i]| != |s[j]|
    ensures Distinct(s)
  {
  }

  // ------------------------------------------------------ categorizeBookmark

  /** `config.domains.some(d => domain.includes(d))`. */
  predicate DomainHit(domain: string, c: TagConfig) {
    exists j :: 0 <= j < |c.domains| && Contains(domain, c.domains[j])
  }

  /** `config.keywords.some(k => title.includes(k))`. */
  predicate KeywordHit(title: string, c: TagConfig) {
    exists j :: 0 <= j < |c.keywords| && Contains(title, c.keywords[j])
  }

  /** The score of one tag: 0.6 for a domain match plus 0.4 for a keyword match. */
  function Score(c: TagConfig, domain: string, title: string): (s: nat)
    ensures s > 0 <==> DomainHit(domain, c) || KeywordHit(title, c)
    ensures s <= DomainScore + KeywordScore
  {
    (if DomainHit(domain, c) then DomainScore else 0) + (if KeywordHit(title, c) then KeywordScore else 0)
  }

  /** The `categories` object: one `(key, score)` entry per tag whose score reaches its threshold, in tag order. */
  function Categories(cs: seq<TagConfig>, domain: string, title: string): seq<(string, nat)> {
    if cs == [] then []
    else
      var c := cs[|cs| - 1];
      Categories(cs[..|cs| - 1], domain, title) + (if Score(c, domain, title) >= c.threshold then [(c.key, Score(c, domain, title))] else [])
  }

  /**
   * `categorizeBookmark(node)`: null without a URL or when the URL does not
   * parse (the `catch`), null when no tag reaches its threshold, otherwise
   * the categories of the lower-cased host name and title.
   */
  function CategorizeBookmark(node: Node, parse: UrlParser, cs: seq<TagConfig>): (r: Option<seq<(string, nat)>>)
    ensures node.url == "" || parse(node.url).None? ==> r.None?
    ensures r.Some? ==> r.value != []
  {
    if node.url == "" then None
    else
      match parse(node.url)
      case None => None
      case Some(u) =>
        var cats := Categories(cs, Lower(u.hostname), Lower(node.title));
        if cats == [] then None else Some(cats)
  }

  /** Every entry is some tag's key with that tag's score, and the score reaches the tag's threshold. */
  lemma {:induction false} CategoriesSound(cs: seq<TagConfig>, domain: string, title: string, j: nat)
    requires j < |Categories(cs, domain, title)|
    ensures exists i :: 0 <= i < |cs| && Categories(cs, domain, title)[j] == (cs[i].key, Score(cs[i], domain, title))
                                      && Score(cs[i], domain, title) >= cs[i].threshold
  {
    var init := cs[..|cs| - 1];
    var r := Categories(init, domain, title);
    if j < |r| {
      CategoriesSound(init, domain, title, j);
      var i :| 0 <= i < |init| && r[j] == (init[i].key, Score(init[i], domain, title)) && Score(init[i], domain, title) >= init[i].threshold;
      assert cs[i] == init[i];
    } else {
      assert Categories(cs, domain, title)[j] == (cs[|cs| - 1].key, Score(cs[|cs| - 1], domain, title));
    }
  }

  /** With distinct keys, a tag's key appears among the categories iff its score reaches its threshold. */
  lemma {:induction false} CategoriesMember(cs: seq<TagConfig>, domain: string, title: string, i: nat)
    requires Distinct(Keys(cs)) && i < |cs|
    ensures Score(cs[i], domain, title) >= cs[i].threshold ==>
              exists j :: 0 <= j < |Categories(cs, domain, title)| && Categories(cs, domain, title)[j] == (cs[i].key, Score(cs[i], domain, title))
    ensures forall j :: 0 <= j < |Categories(cs, domain, title)| && Categories(cs, domain, title)[j].0 == cs[i].key ==>
              Score(cs[i], domain, title) >= cs[i].threshold
  {
    var init, c := cs[..|cs| - 1], cs[|cs| - 1];
    var r := Categories(init, domain, title);
    var all := Categories(cs, domain, title);
    assert all[..|r|] == r;
    if i < |init| {
      assert init[i] == cs[i];
      assert Keys(init) == Keys(cs)[..|init|];
      CategoriesMember(init, domain, title, i);
      assert c.key != cs[i].key by {
        assert Keys(cs)[i] == cs[i].key && Keys(cs)[|cs| - 1] == c.key;
      }
      forall j | 0 <= j < |all| && all[j].0 == cs[i].key
        ensures Score(cs[i], domain, title) >= cs[i].threshold
      {
        assert j < |r| && r[j] == all[j];
      }
      if Score(cs[i], domain, title) >= cs[i].threshold {
        var j :| 0 <= j < |r| && r[j] == (init[i].key, Score(init[i], domain, title));
        assert all[j] == r[j];
      }
    } else {
      forall j | 0 <= j < |r|
        ensures r[j].0 != c.key
      {
        CategoriesSound(init, domain, title, j);
        var k :| 0 <= k < |init| && r[j] == (init[k].key, Score(init[k], domain, title)) && Score(init[k], domain, title) >= init[k].threshold;
        assert Keys(cs)[k] == init[k].key && Keys(cs)[|cs| - 1] == c.key;
      }
      if Score(c, domain, title) >= c.threshold {
        assert all[|r|] == (c.key, Score(c, domain, title));
      }
    }
  }

  /**
   * For a bookmark whose URL parses, `TAG_CONFIGS` includes a tag iff the
   * host name contains one of its domains or the title one of its keywords
   * (every threshold is positive and below 0.4); the result is null iff no
   * tag matches.
   */
  lemma CategorizeBookmarkTags(node: Node, parse: UrlParser, lists: seq<TagLists>, u: UrlParts, i: nat)
    requires |lists| == |TagKeys| && i < |TagKeys|
    requires node.url != "" && parse(node.url) == Some(u)
    ensures var cs := TagConfigs(lists);
            var domain, title := Lower(u.hostname), Lower(node.title);
            var r := CategorizeBookmark(node, parse, cs);
            && ((r.Some? && exists j :: 0 <= j < |r.value| && r.value[j].0 == TagKeys[i])
                <==> DomainHit(domain, cs[i]) || KeywordHit(title, cs[i]))
            && (r.None? <==> forall k :: 0 <= k < |cs| ==> !DomainHit(domain, cs[k]) && !KeywordHit(title, cs[k]))
  {
    var cs := TagConfigs(lists);
    var domain, title := Lower(u.hostname), Lower(node.title);
    TagConfigsWellFormed(lists);
    CategoriesMember(cs, domain, title, i);
    var cats := Categories(cs, domain, title);
    if cats == [] {
      forall k | 0 <= k < |cs|
        ensures !DomainHit(domain, cs[k]) && !KeywordHit(title, cs[k])
      {
        CategoriesMember(cs, domain, title, k);
      }
    } else {
      CategoriesSound(cs, domain, title, 0);
    }
  }

  // ------------------------------------------------------- categorizeDomains

  /** A value of `categoryStats`: a number, or NaN once `undefined` has been added to. */
  datatype Num = Num(n: nat) | NaN

  /** `categoryStats` as initialised: only four of the seven tag ids. */
  const InitialCategoryStats: map<string, Num> := map["tech" := Num(0), "learning" := Num(0), "tools" := Num(0), "social" := Num(0)]

  /** `categoryStats[k]`: absent keys read as `undefined`. */
  function Entry(m: map<string, Num>, k: string): Option<Num> {
    if k in m then Some(m[k]) else None
  }

  /** `x + count`: a number grows, `undefined` and NaN give NaN. */
  function AddCount(e: Option<Num>, count: nat): Num {
    if e.Some? && e.value.Num? then Num(e.value.n + count) else NaN
  }

  /** The inner loop over `TAG_CONFIGS` for one domain. */
  function TagPass(m: map<string, Num>, domain: string, count: nat, cs: seq<TagConfig>): map<string, Num> {
    if cs == [] then m
    else
      var m' := TagPass(m, domain, count, cs[..|cs| - 1]);
      var c := cs[|cs| - 1];
      if DomainHit(domain, c) then m'[c.id := AddCount(Entry(m', c.id), count)] else m'
  }

  /** The outer loop over the entries of `stats.domains`, each key lower-cased. */
  function DomainPass(domains: Counts<string>, cs: seq<TagConfig>): map<string, Num> {
    if domains == [] then InitialCategoryStats
    else
      var last := domains[|domains| - 1];
      TagPass(DomainPass(domains[..|domains| - 1], cs), Lower(last.0), last.1, cs)
  }

  /** The reference totals: the counts of the domains a tag's list matches, and whether any does. */
  function Total(domains: Counts<string>, c: TagConfig): nat {
    if domains == [] then 0
    else
      var last := domains[|domains| - 1];
      Total(domains[..|domains| - 1], c) + (if DomainHit(Lower(last.0), c) then last.1 else 0)
  }

  predicate AnyHit(domains: Counts<string>, c: TagConfig) {
    exists j :: 0 <= j < |domains| && DomainHit(Lower(domains[j].0), c)
  }

  /** `categorizeDomains(stats)`. */
  method CategorizeDomains(domains: Counts<string>, cs: seq<TagConfig>) returns (r: map<string, Num>)
    ensures r == DomainPass(domains, cs)
  {
    r := InitialCategoryStats;
    for i := 0 to |domains|
      invariant r == DomainPass(domains[..i], cs)
    {
      var domain, count := Lower(domains[i].0), domains[i].1;
      ghost var before := r;
      for j := 0 to |cs|
        invariant r == TagPass(before, domain, count, cs[..j])
      {
        assert cs[..j + 1][..j] == cs[..j];
        if DomainHit(domain, cs[j]) {
          r := r[cs[j].id := AddCount(Entry(r, cs[j].id), count)];
        }
      }
      assert cs[..|cs|] == cs;
      assert domains[..i + 1][..i] == domains[..i];
    }
    assert domains[..|domains|] == domains;
  }

  /** One domain: the entry of key `k` grows iff some tag with id `k` matches the domain; every other entry stays. */
  lemma {:induction false} TagPassEntry(m: map<string, Num>, domain: string, count: nat, cs: seq<TagConfig>, k: string)
    requires Distinct(Ids(cs))
    ensures Entry(TagPass(m, domain, count, cs), k)
            == if exists i :: 0 <= i < |cs| && cs[i].id == k && DomainHit(domain, cs[i])
               then Some(AddCount(Entry(m, k), count)) else Entry(m, k)
  {
    if cs != [] {
      var init, c := cs[..|cs| - 1], cs[|cs| - 1];
      assert Ids(init) == Ids(cs)[..|init|];
      TagPassEntry(m, domain, count, init, k);
      if c.id == k {
        forall i | 0 <= i < |init|
          ensures init[i].id != k
        {
          assert Ids(cs)[i] == init[i].id && Ids(cs)[|cs| - 1] == c.id;
        }
      } else {
        if exists i :: 0 <= i < |cs| && cs[i].id == k && DomainHit(domain, cs[i]) {
          var i :| 0 <= i < |cs| && cs[i].id == k && DomainHit(domain, cs[i]);
          assert init[i] == cs[i];
        }
      }
    }
  }

  /**
   * The four initialised ids end with the total count of the domains their
   * list matches; any other tag's id is absent if no domain matched and NaN
   * otherwise.
   */
  lemma {:induction false} DomainPassEntry(domains: Counts<string>, cs: seq<TagConfig>, i: nat)
    requires Distinct(Ids(cs)) && i < |cs|
    ensures Entry(DomainPass(domains, cs), cs[i].id)
            == if cs[i].id in InitialCategoryStats then Some(Num(Total(domains, cs[i])))
               else if AnyHit(domains, cs[i]) then Some(NaN) else None
  {
    if domains != [] {
      var init, last := domains[..|domains| - 1], domains[|domains| - 1];
      DomainPassEntry(init, cs, i);
      TagPassEntry(DomainPass(init, cs), Lower(last.0), last.1, cs, cs[i].id);
      UniqueIdHit(cs, i, Lower(last.0));
      AnyHitStep(domains, cs[i]);
    } else {
      assert !AnyHit(domains, cs[i]);
    }
  }

  /** With distinct ids, the only tag carrying `cs[i]`'s id is `cs[i]` itself. */
  lemma UniqueIdHit(cs: seq<TagConfig>, i: nat, domain: string)
    requires Distinct(Ids(cs)) && i < |cs|
    ensures (exists i' :: 0 <= i' < |cs| && cs[i'].id == cs[i].id && DomainHit(domain, cs[i'])) <==> DomainHit(domain, cs[i])
  {
    forall i' | 0 <= i' < |cs| && cs[i'].id == cs[i].id
      ensures i' == i
    {
      assert Ids(cs)[i'] == Ids(cs)[i];
    }
  }

  /** Some domain of a non-empty list hits a tag iff one of the earlier ones or the last one does. */
  lemma AnyHitStep(domains: Counts<string>, c: TagConfig)
    requires domains != []
    ensures AnyHit(domains, c) <==> AnyHit(domains[..|domains| - 1], c) || DomainHit(Lower(domains[|domains| - 1].0), c)
  {
    var init := domains[..|domains| - 1];
    if AnyHit(domains, c) && !DomainHit(Lower(domains[|domains| - 1].0), c) {
      var j :| 0 <= j < |domains| && DomainHit(Lower(domains[j].0), c);
      assert j < |init| && init[j] == domains[j];
    }
    if AnyHit(init, c) {
      var j :| 0 <= j < |init| && DomainHit(Lower(init[j].0), c);
      assert domains[j] == init[j];
    }
  }

  /** A key that is no tag's id keeps its initial entry: nothing is added outside the tag ids. */
  lemma {:induction false} DomainPassOther(domains: Counts<string>, cs: seq<TagConfig>, k: string)
    requires Distinct(Ids(cs))
    requires forall i :: 0 <= i < |cs| ==> cs[i].id != k
    ensures Entry(DomainPass(domains, cs), k) == Entry(InitialCategoryStats, k)
  {
    if domains != [] {
      var init, last := domains[..|domains| - 1], domains[|domains| - 1];
      DomainPassOther(init, cs, k);
      TagPassEntry(DomainPass(init, cs), Lower(last.0), last.1, cs, k);
    }
  }

  /**
   * `categorizeDomains` over `TAG_CONFIGS`: tech, learning, tools and social
   * hold their totals; news, shopping and entertainment are absent when no
   * domain matched and NaN when one did; no other key is ever set.
   */
  lemma CategorizeDomainsTotals(domains: Counts<string>, lists: seq<TagLists>, i: nat, k: string)
    requires |lists| == |TagKeys| && i < |TagKeys|
    ensures var cs := TagConfigs(lists);
            var m := DomainPass(domains, cs);
            && (i < 4 ==> TagIds[i] in m && m[TagIds[i]] == Num(Total(domains, cs[i])))
            && (i >= 4 ==> (TagIds[i] in m <==> AnyHit(domains, cs[i])) && (TagIds[i] in m ==> m[TagIds[i]] == NaN))
            && (k !in TagIds ==> k !in m)
  {
    var cs := TagConfigs(lists);
    TagConfigsWellFormed(lists);
    DomainPassEntry(domains, cs, i);
    if k !in TagIds {
      DomainPassOther(domains, cs, k);
    }
  }
}
