/**
 * The duplicate finder (`DuplicateBookmarkManager`): flattening the tree in
 * pre-order with each bookmark's folder path, grouping the bookmarks by
 * trimmed URL, the two counters above the list, and the checkbox rules of
 * "keep newest", "keep oldest", "cancel selection" and the group checkbox.
 *
 * The page's item checkboxes are a map from bookmark id to checked state;
 * the group checkboxes are a sequence parallel to the groups.
 */
module Duplicates {
  import opened Strings
  import opened Bookmarks
  import opened Sorting

  /** An element of the `bookmarks` array: the node's fields and the titles of the folders above it. */
  datatype Entry = Entry(id: string, title: string, url: string, dateAdded: int, path: seq<string>)

  // ------------------------------------------------------- traverseBookmarks

  /** The entries `traverseBookmarks(n, bookmarks, path)` pushes: the node itself, then its children's. */
  function Entries(n: Node, path: seq<string>): seq<Entry>
    decreases n
  {
    (if n.url != "" then [Entry(n.id, n.title, n.url, n.dateAdded, path)] else [])
    + (if n.hasChildren then EntriesIn(n.children, if n.title != "" then path + [n.title] else path) else [])
  }

  function EntriesIn(cs: seq<Node>, path: seq<string>): seq<Entry>
    decreases cs
  {
    if cs == [] then [] else EntriesIn(cs[..|cs| - 1], path) + Entries(cs[|cs| - 1], path)
  }

  /** `traverseBookmarks`: appends the entries of `n` to `bookmarks`. */
  method Traverse(n: Node, bookmarks: seq<Entry>, path: seq<string>) returns (r: seq<Entry>)
    ensures r == bookmarks + Entries(n, path)
    decreases n
  {
    ghost var mine: seq<Entry> := if n.url != "" then [Entry(n.id, n.title, n.url, n.dateAdded, path)] else [];
    r := bookmarks;
    if n.url != "" {
      r := r + [Entry(n.id, n.title, n.url, n.dateAdded, path)];
    }
    ghost var own := r;
    if n.hasChildren {
      var newPath := if n.title != "" then path + [n.title] else path;
      for i := 0 to |n.children|
        invariant r == own + EntriesIn(n.children[..i], newPath)
      {
        ghost var done := EntriesIn(n.children[..i], newPath);
        r := Traverse(n.children[i], r, newPath);
        EntriesInStep(n.children, i, newPath);
        ConcatAssoc(own, done, Entries(n.children[i], newPath));
      }
      assert n.children[..|n.children|] == n.children;
      ConcatAssoc(bookmarks, mine, EntriesIn(n.children, newPath));
    }
  }

  lemma EntriesInStep(cs: seq<Node>, i: nat, path: seq<string>)
    requires i < |cs|
    ensures EntriesIn(cs[..i + 1], path) == EntriesIn(cs[..i], path) + Entries(cs[i], path)
  {
    assert cs[..i + 1][..i] == cs[..i];
  }

  /** The reference order: every node, each before its descendants, children in order. */
  function PreOrder(n: Node): seq<Node>
    decreases n
  {
    [n] + (if n.hasChildren then PreOrderIn(n.children) else [])
  }

  function PreOrderIn(cs: seq<Node>): seq<Node>
    decreases cs
  {
    if cs == [] then [] else PreOrderIn(cs[..|cs| - 1]) + PreOrder(cs[|cs| - 1])
  }

  /** The nodes with a URL, in order. */
  function WithUrl(ns: seq<Node>): seq<Node> {
    if ns == [] then [] else WithUrl(ns[..|ns| - 1]) + (if ns[|ns| - 1].url != "" then [ns[|ns| - 1]] else [])
  }

  /** The node fields an entry copies. */
  function Fields(es: seq<Entry>): seq<(string, string, string, int)> {
    if es == [] then [] else Fields(es[..|es| - 1]) + [(es[|es| - 1].id, es[|es| - 1].title, es[|es| - 1].url, es[|es| - 1].dateAdded)]
  }

  function NodeFields(ns: seq<Node>): seq<(string, string, string, int)> {
    if ns == [] then [] else NodeFields(ns[..|ns| - 1]) + [(ns[|ns| - 1].id, ns[|ns| - 1].title, ns[|ns| - 1].url, ns[|ns| - 1].dateAdded)]
  }

  lemma {:induction false} WithUrlAppend(a: seq<Node>, b: seq<Node>)
    ensures WithUrl(a + b) == WithUrl(a) + WithUrl(b)
    decreases |b|
  {
    if b == [] {
      assert a + b == a;
    } else {
      assert (a + b)[..|a + b| - 1] == a + b[..|b| - 1];
      WithUrlAppend(a, b[..|b| - 1]);
    }
  }

  lemma {:induction false} FieldsAppend(a: seq<Entry>, b: seq<Entry>)
    ensures Fields(a + b) == Fields(a) + Fields(b)
    decreases |b|
  {
    if b == [] {
      assert a + b == a;
    } else {
      assert (a + b)[..|a + b| - 1] == a + b[..|b| - 1];
      FieldsAppend(a, b[..|b| - 1]);
    }
  }

  lemma {:induction false} NodeFieldsAppend(a: seq<Node>, b: seq<Node>)
    ensures NodeFields(a + b) == NodeFields(a) + NodeFields(b)
    decreases |b|
  {
    if b == [] {
      assert a + b == a;
    } else {
      assert (a + b)[..|a + b| - 1] == a + b[..|b| - 1];
      NodeFieldsAppend(a, b[..|b| - 1]);
    }
  }

  /** The flattening emits exactly the nodes with a URL, each once, in pre-order, with their own fields. */
  lemma {:induction false} EntriesArePreOrder(n: Node, path: seq<string>)
    ensures Fields(Entries(n, path)) == NodeFields(WithUrl(PreOrder(n)))
    decreases n
  {
    var own := if n.url != "" then [Entry(n.id, n.title, n.url, n.dateAdded, path)] else [];
    var mine := if n.url != "" then [n] else [];
    assert WithUrl([n]) == mine by {
      assert [n][..0] == [];
    }
    assert Fields(own) == NodeFields(mine) by {
      assert own == [] || own[..0] == [];
      assert mine == [] || mine[..0] == [];
    }
    if n.hasChildren {
      var newPath := if n.title != "" then path + [n.title] else path;
      var below := PreOrderIn(n.children);
      WithUrlAppend([n], below);
      FieldsAppend(own, EntriesIn(n.children, newPath));
      NodeFieldsAppend(mine, WithUrl(below));
      EntriesInArePreOrder(n.children, newPath);
    } else {
      assert Entries(n, path) == own + [];
      assert PreOrder(n) == [n] + [];
    }
  }

  lemma {:induction false} EntriesInArePreOrder(cs: seq<Node>, path: seq<string>)
    ensures Fields(EntriesIn(cs, path)) == NodeFields(WithUrl(PreOrderIn(cs)))
    decreases cs
  {
    if cs != [] {
      var init, last := cs[..|cs| - 1], cs[|cs| - 1];
      EntriesInArePreOrder(init, path);
      EntriesArePreOrder(last, path);
      FieldsAppend(EntriesIn(init, path), Entries(last, path));
      WithUrlAppend(PreOrderIn(init), PreOrder(last));
      NodeFieldsAppend(WithUrl(PreOrderIn(init)), WithUrl(PreOrder(last)));
    }
  }

  /** The path extends the starting path by folder titles only, and an untitled folder adds nothing. */
  predicate PathBelow(e: Entry, path: seq<string>) {
    path <= e.path && forall k :: |path| <= k < |e.path| ==> e.path[k] != ""
  }

  lemma {:induction false} EntriesPaths(n: Node, path: seq<string>, i: nat)
    requires i < |Entries(n, path)|
    ensures PathBelow(Entries(n, path)[i], path)
    decreases n
  {
    var own := if n.url != "" then [Entry(n.id, n.title, n.url, n.dateAdded, path)] else [];
    if i >= |own| {
      var newPath := if n.title != "" then path + [n.title] else path;
      EntriesInPaths(n.children, newPath, i - |own|);
      assert Entries(n, path)[i] == EntriesIn(n.children, newPath)[i - |own|];
    }
  }

  lemma {:induction false} EntriesInPaths(cs: seq<Node>, path: seq<string>, i: nat)
    requires i < |EntriesIn(cs, path)|
    ensures PathBelow(EntriesIn(cs, path)[i], path)
    decreases cs
  {
    var init, last := cs[..|cs| - 1], cs[|cs| - 1];
    var a := EntriesIn(init, path);
    if i < |a| {
      EntriesInPaths(init, path, i);
      assert EntriesIn(cs, path)[i] == a[i];
    } else {
      EntriesPaths(last, path, i - |a|);
      assert EntriesIn(cs, path)[i] == Entries(last, path)[i - |a|];
    }
  }

  // ----------------------------------------------------------- findDuplicates

  /** `urlMap`: the groups keyed by trimmed URL, in the order the URLs first occur. */
  type Groups = seq<(string, seq<Entry>)>

  predicate HasKey(m: Groups, k: string) {
    exists i :: 0 <= i < |m| && m[i].0 == k
  }

  predicate KeysDistinct(m: Groups) {
    forall i, j :: 0 <= i < j < |m| ==> m[i].0 != m[j].0
  }

  /** `urlMap.get(k) || []`. */
  function Lookup(m: Groups, k: string): seq<Entry> {
    if m == [] then []
    else if m[|m| - 1].0 == k then m[|m| - 1].1
    else Lookup(m[..|m| - 1], k)
  }

  /** `if (!urlMap.has(k)) urlMap.set(k, []); urlMap.get(k).push(e)`. */
  function AddEntry(m: Groups, k: string, e: Entry): (r: Groups)
    ensures |r| == if HasKey(m, k) then |m| else |m| + 1
  {
    if m == [] then [(k, [e])]
    else if m[|m| - 1].0 == k then m[..|m| - 1] + [(k, m[|m| - 1].1 + [e])]
    else
      var r := AddEntry(m[..|m| - 1], k, e) + [m[|m| - 1]];
      assert HasKey(m, k) <==> HasKey(m[..|m| - 1], k) by {
        if HasKey(m, k) {
          var i :| 0 <= i < |m| && m[i].0 == k;
          assert i < |m| - 1 && m[..|m| - 1][i] == m[i];
        }
      }
      r
  }

  /** The map after the `forEach` over `bookmarks`. */
  function GroupMap(bs: seq<Entry>): Groups {
    if bs == [] then [] else AddEntry(GroupMap(bs[..|bs| - 1]), Trim(bs[|bs| - 1].url), bs[|bs| - 1])
  }

  /** The bookmarks whose trimmed URL is `u`, in order. */
  function SameUrl(bs: seq<Entry>, u: string): (r: seq<Entry>)
    ensures |r| <= |bs|
  {
    if bs == [] then []
    else SameUrl(bs[..|bs| - 1], u) + (if Trim(bs[|bs| - 1].url) == u then [bs[|bs| - 1]] else [])
  }

  function Values(m: Groups): (r: seq<seq<Entry>>)
    ensures |r| == |m|
  {
    if m == [] then [] else Values(m[..|m| - 1]) + [m[|m| - 1].1]
  }

  /** `.filter(group => group.length > 1)`. */
  function LongGroups(gs: seq<seq<Entry>>): seq<seq<Entry>> {
    if gs == [] then [] else LongGroups(gs[..|gs| - 1]) + (if |gs[|gs| - 1]| > 1 then [gs[|gs| - 1]] else [])
  }

  /** `.sort((a, b) => b.length - a.length)`: the key the stable sort orders by. */
  function BySizeDescending(g: seq<Entry>): int {
    -|g|
  }

  function Duplicates(bs: seq<Entry>): seq<seq<Entry>> {
    SortBy(LongGroups(Values(GroupMap(bs))), BySizeDescending)
  }

  /** `findDuplicates(bookmarks)`. */
  method FindDuplicates(bs: seq<Entry>) returns (groups: seq<seq<Entry>>)
    ensures groups == Duplicates(bs)
  {
    var urlMap: Groups := [];
    for i := 0 to |bs|
      invariant urlMap == GroupMap(bs[..i])
    {
      assert bs[..i + 1][..i] == bs[..i];
      urlMap := AddEntry(urlMap, Trim(bs[i].url), bs[i]);
    }
    assert bs[..|bs|] == bs;
    groups := SortBy(LongGroups(Values(urlMap)), BySizeDescending);
  }

  lemma {:induction false} LookupAdd(m: Groups, k: string, e: Entry, x: string)
    ensures Lookup(AddEntry(m, k, e), x) == Lookup(m, x) + (if x == k then [e] else [])
  {
    if m != [] && m[|m| - 1].0 != k {
      var init := m[..|m| - 1];
      LookupAdd(init, k, e, x);
      assert (AddEntry(init, k, e) + [m[|m| - 1]])[..|AddEntry(init, k, e)|] == AddEntry(init, k, e);
    } else if m != [] {
      assert (m[..|m| - 1] + [(k, m[|m| - 1].1 + [e])])[..|m| - 1] == m[..|m| - 1];
    }
  }

  /** Every URL's group holds exactly the bookmarks with that trimmed URL, in traversal order. */
  lemma {:induction false} LookupGroupMap(bs: seq<Entry>, u: string)
    ensures Lookup(GroupMap(bs), u) == SameUrl(bs, u)
  {
    if bs != [] {
      LookupGroupMap(bs[..|bs| - 1], u);
      LookupAdd(GroupMap(bs[..|bs| - 1]), Trim(bs[|bs| - 1].url), bs[|bs| - 1], u);
    }
  }

  lemma {:induction false} KeyOfAdd(m: Groups, k: string, e: Entry, i: nat)
    requires i < |AddEntry(m, k, e)|
    ensures AddEntry(m, k, e)[i].0 == k || HasKey(m, AddEntry(m, k, e)[i].0)
  {
    if m != [] && m[|m| - 1].0 != k {
      var init := m[..|m| - 1];
      if i < |AddEntry(init, k, e)| {
        KeyOfAdd(init, k, e, i);
        if AddEntry(init, k, e)[i].0 != k {
          var j :| 0 <= j < |init| && init[j].0 == AddEntry(init, k, e)[i].0;
          assert m[j] == init[j];
        }
      } else {
        assert AddEntry(m, k, e)[i] == m[|m| - 1];
      }
    } else if m != [] && i < |m| - 1 {
      assert AddEntry(m, k, e)[i] == m[i];
    }
  }

  lemma {:induction false} AddDistinct(m: Groups, k: string, e: Entry)
    requires KeysDistinct(m)
    ensures KeysDistinct(AddEntry(m, k, e))
  {
    if m != [] && m[|m| - 1].0 != k {
      var init := m[..|m| - 1];
      AddDistinct(init, k, e);
      var r := AddEntry(init, k, e);
      forall i | 0 <= i < |r|
        ensures r[i].0 != m[|m| - 1].0
      {
        KeyOfAdd(init, k, e, i);
        if r[i].0 != k {
          var j :| 0 <= j < |init| && init[j].0 == r[i].0;
          assert m[j] == init[j];
        }
      }
    }
  }

  lemma {:induction false} GroupMapDistinct(bs: seq<Entry>)
    ensures KeysDistinct(GroupMap(bs))
  {
    if bs != [] {
      GroupMapDistinct(bs[..|bs| - 1]);
      AddDistinct(GroupMap(bs[..|bs| - 1]), Trim(bs[|bs| - 1].url), bs[|bs| - 1]);
    }
  }

  lemma {:induction false} EntryIsLookup(m: Groups, i: nat)
    requires KeysDistinct(m) && i < |m|
    ensures Lookup(m, m[i].0) == m[i].1
  {
    if i < |m| - 1 {
      EntryIsLookup(m[..|m| - 1], i);
    }
  }

  /** Each value of the map is the group of its key. */
  lemma GroupMapValue(bs: seq<Entry>, i: nat)
    requires i < |GroupMap(bs)|
    ensures GroupMap(bs)[i].1 == SameUrl(bs, GroupMap(bs)[i].0)
  {
    GroupMapDistinct(bs);
    EntryIsLookup(GroupMap(bs), i);
    LookupGroupMap(bs, GroupMap(bs)[i].0);
  }

  lemma {:induction false} SameUrlMember(bs: seq<Entry>, u: string, e: Entry)
    ensures e in SameUrl(bs, u) <==> e in bs && Trim(e.url) == u
  {
    if bs != [] {
      var init, last := bs[..|bs| - 1], bs[|bs| - 1];
      SameUrlMember(init, u, e);
      assert bs == init + [last];
      assert e in bs <==> e in init || e == last;
      assert SameUrl(bs, u) == SameUrl(init, u) + (if Trim(last.url) == u then [last] else []);
    }
  }

  lemma {:induction false} LookupHasKey(m: Groups, k: string)
    requires Lookup(m, k) != []
    ensures HasKey(m, k)
  {
    if m[|m| - 1].0 != k {
      LookupHasKey(m[..|m| - 1], k);
      var i :| 0 <= i < |m| - 1 && m[..|m| - 1][i].0 == k;
      assert m[i] == m[..|m| - 1][i];
    }
  }

  /** A URL that occurs has a key in the map. */
  lemma GroupMapHasKey(bs: seq<Entry>, j: nat)
    requires j < |bs|
    ensures HasKey(GroupMap(bs), Trim(bs[j].url))
  {
    var u := Trim(bs[j].url);
    LookupGroupMap(bs, u);
    SameUrlMember(bs, u, bs[j]);
    LookupHasKey(GroupMap(bs), u);
  }

  lemma {:induction false} LongGroupsMember(gs: seq<seq<Entry>>, g: seq<Entry>)
    ensures g in LongGroups(gs) <==> g in gs && |g| > 1
  {
    if gs != [] {
      LongGroupsMember(gs[..|gs| - 1], g);
      assert gs == gs[..|gs| - 1] + [gs[|gs| - 1]];
    }
  }

  lemma {:induction false} ValuesMember(m: Groups, g: seq<Entry>)
    ensures g in Values(m) <==> exists i :: 0 <= i < |m| && m[i].1 == g
  {
    if m != [] {
      ValuesMember(m[..|m| - 1], g);
      if exists i :: 0 <= i < |m| && m[i].1 == g {
        var i :| 0 <= i < |m| && m[i].1 == g;
        if i < |m| - 1 {
          assert m[..|m| - 1][i] == m[i];
        }
      }
      if g in Values(m[..|m| - 1]) {
        var i :| 0 <= i < |m| - 1 && m[..|m| - 1][i].1 == g;
        assert m[i] == m[..|m| - 1][i];
      }
    }
  }

  /** Every group has at least two bookmarks and is exactly the bookmarks sharing its first member's trimmed URL, in traversal order. */
  lemma DuplicateGroupsShareUrl(bs: seq<Entry>, g: seq<Entry>)
    requires g in Duplicates(bs)
    ensures |g| >= 2
    ensures g == SameUrl(bs, Trim(g[0].url))
  {
    var m := GroupMap(bs);
    SortByCorrect(LongGroups(Values(m)), BySizeDescending);
    assert g in multiset(Duplicates(bs));
    LongGroupsMember(Values(m), g);
    ValuesMember(m, g);
    var i :| 0 <= i < |m| && m[i].1 == g;
    GroupMapValue(bs, i);
    SameUrlMember(bs, m[i].0, g[0]);
  }

  /** Groups come in order of non-increasing size and are a permutation of the long groups of the map. */
  lemma DuplicatesOrdered(bs: seq<Entry>)
    ensures forall i, j :: 0 <= i < j < |Duplicates(bs)| ==> |Duplicates(bs)[i]| >= |Duplicates(bs)[j]|
    ensures multiset(Duplicates(bs)) == multiset(LongGroups(Values(GroupMap(bs))))
  {
    SortByCorrect(LongGroups(Values(GroupMap(bs))), BySizeDescending);
  }

  /** A bookmark is in some group iff its trimmed URL occurs at least twice. */
  lemma DuplicateMembership(bs: seq<Entry>, j: nat)
    requires j < |bs|
    ensures (exists g :: g in Duplicates(bs) && bs[j] in g) <==> |SameUrl(bs, Trim(bs[j].url))| >= 2
  {
    var u := Trim(bs[j].url);
    var m := GroupMap(bs);
    SortByCorrect(LongGroups(Values(m)), BySizeDescending);
    if exists g :: g in Duplicates(bs) && bs[j] in g {
      var g: seq<Entry> :| g in Duplicates(bs) && bs[j] in g;
      DuplicateGroupsShareUrl(bs, g);
      SameUrlMember(bs, Trim(g[0].url), bs[j]);
    }
    if |SameUrl(bs, u)| >= 2 {
      GroupMapHasKey(bs, j);
      var i :| 0 <= i < |m| && m[i].0 == u;
      GroupMapValue(bs, i);
      ValuesMember(m, m[i].1);
      LongGroupsMember(Values(m), m[i].1);
      assert m[i].1 in multiset(Duplicates(bs));
      SameUrlMember(bs, u, bs[j]);
    }
  }

  // ------------------------------------------------------------- updateStats

  /** `duplicateUrls.reduce((sum, group) => sum + group.length, 0)`. */
  function SumSizes(gs: seq<seq<Entry>>): nat {
    if gs == [] then 0 else SumSizes(gs[..|gs| - 1]) + |gs[|gs| - 1]|
  }

  /** The two counters `updateStats` shows: duplicate URLs and duplicate bookmarks. */
  method Stats(groups: seq<seq<Entry>>) returns (urls: nat, bookmarks: nat)
    ensures urls == |groups| && bookmarks == SumSizes(groups)
  {
    urls := |groups|;
    bookmarks := 0;
    for i := 0 to |groups|
      invariant bookmarks == SumSizes(groups[..i])
    {
      assert groups[..i + 1][..i] == groups[..i];
      bookmarks := bookmarks + |groups[i]|;
    }
    assert groups[..|groups|] == groups;
  }

  /** How many bookmarks have a trimmed URL satisfying `p`. */
  function CountWhere(bs: seq<Entry>, p: string -> bool): nat {
    if bs == [] then 0 else CountWhere(bs[..|bs| - 1], p) + (if p(Trim(bs[|bs| - 1].url)) then 1 else 0)
  }

  /** The total size of the groups whose key satisfies `p`. */
  function SumWhere(m: Groups, p: string -> bool): nat {
    if m == [] then 0 else SumWhere(m[..|m| - 1], p) + (if p(m[|m| - 1].0) then |m[|m| - 1].1| else 0)
  }

  lemma {:induction false} SumWhereAdd(m: Groups, k: string, e: Entry, p: string -> bool)
    ensures SumWhere(AddEntry(m, k, e), p) == SumWhere(m, p) + (if p(k) then 1 else 0)
  {
    if m != [] && m[|m| - 1].0 != k {
      var init := m[..|m| - 1];
      SumWhereAdd(init, k, e, p);
      assert (AddEntry(init, k, e) + [m[|m| - 1]])[..|AddEntry(init, k, e)|] == AddEntry(init, k, e);
    } else if m != [] {
      assert (m[..|m| - 1] + [(k, m[|m| - 1].1 + [e])])[..|m| - 1] == m[..|m| - 1];
    }
  }

  lemma {:induction false} SumWhereGroupMap(bs: seq<Entry>, p: string -> bool)
    ensures SumWhere(GroupMap(bs), p) == CountWhere(bs, p)
  {
    if bs != [] {
      SumWhereGroupMap(bs[..|bs| - 1], p);
      SumWhereAdd(GroupMap(bs[..|bs| - 1]), Trim(bs[|bs| - 1].url), bs[|bs| - 1], p);
    }
  }

  /** The long groups of a map's values, one entry at a time. */
  lemma SumLongGroupsLast(m: Groups)
    requires m != []
    ensures SumSizes(LongGroups(Values(m)))
      == SumSizes(LongGroups(Values(m[..|m| - 1]))) + (if |m[|m| - 1].1| > 1 then |m[|m| - 1].1| else 0)
  {
    var g := m[|m| - 1].1;
    var l := LongGroups(Values(m[..|m| - 1]));
    assert Values(m)[..|m| - 1] == Values(m[..|m| - 1]);
    if |g| > 1 {
      assert (l + [g])[..|l|] == l;
    } else {
      assert l + [] == l;
    }
  }

  /** Over a map whose values are the URL groups of `bs`, the long groups are those whose URL occurs twice. */
  lemma {:induction false} SumLongGroups(bs: seq<Entry>, m: Groups)
    requires forall i :: 0 <= i < |m| ==> m[i].1 == SameUrl(bs, m[i].0)
    ensures SumSizes(LongGroups(Values(m))) == SumWhere(m, u => |SameUrl(bs, u)| >= 2)
  {
    if m != [] {
      var init := m[..|m| - 1];
      forall i | 0 <= i < |init|
        ensures init[i].1 == SameUrl(bs, init[i].0)
      {
        assert init[i] == m[i];
      }
      SumLongGroups(bs, init);
      SumLongGroupsLast(m);
    }
  }

  lemma {:induction false} SumSizesInsert(x: seq<Entry>, s: seq<seq<Entry>>)
    ensures SumSizes(Insert(x, s, BySizeDescending)) == SumSizes(s) + |x|
  {
    if s == [] || BySizeDescending(s[|s| - 1]) <= BySizeDescending(x) {
      assert (s + [x])[..|s|] == s;
    } else {
      var r := Insert(x, s[..|s| - 1], BySizeDescending);
      SumSizesInsert(x, s[..|s| - 1]);
      assert (r + [s[|s| - 1]])[..|r|] == r;
    }
  }

  lemma {:induction false} SumSizesSort(s: seq<seq<Entry>>)
    ensures SumSizes(SortBy(s, BySizeDescending)) == SumSizes(s)
  {
    if s != [] {
      SumSizesSort(s[..|s| - 1]);
      SumSizesInsert(s[|s| - 1], SortBy(s[..|s| - 1], BySizeDescending));
    }
  }

  /** The duplicate-bookmark counter equals the number of bookmarks whose trimmed URL occurs at least twice. */
  lemma DuplicateBookmarkCount(bs: seq<Entry>)
    ensures SumSizes(Duplicates(bs)) == CountWhere(bs, u => |SameUrl(bs, u)| >= 2)
  {
    var m := GroupMap(bs);
    forall i | 0 <= i < |m|
      ensures m[i].1 == SameUrl(bs, m[i].0)
    {
      GroupMapValue(bs, i);
    }
    SumLongGroups(bs, m);
    SumSizesSort(LongGroups(Values(m)));
    SumWhereGroupMap(bs, u => |SameUrl(bs, u)| >= 2);
  }

  // ------------------------------------------------------- the checkboxes

  /** The state of a group checkbox. */
  datatype GroupBox = GroupBox(checked: bool, indeterminate: bool)

  /** The id list `others.map(b => b.id)`. */
  function Ids(es: seq<Entry>): (r: seq<string>)
    ensures |r| == |es|
    ensures forall k :: 0 <= k < |es| ==> r[k] == es[k].id
  {
    if es == [] then [] else Ids(es[..|es| - 1]) + [es[|es| - 1].id]
  }

  /** `dateAdded` descending for "keep newest", ascending for "keep oldest". */
  function NewestFirst(e: Entry): int { -e.dateAdded }
  function OldestFirst(e: Entry): int { e.dateAdded }

  /** One group of the `for` loop in `keepNewestBookmarks`/`keepOldestBookmarks`: check the others, uncheck the first. */
  function KeepStep(checked: map<string, bool>, g: seq<Entry>, key: Entry -> int): (r: map<string, bool>)
    requires g != []
    ensures r.Keys == checked.Keys
  {
    var sorted := SortBy(g, key);
    Marked(checked, Ids(sorted[1..]), sorted[0].id)
  }

  /** Every checkbox whose id is among `others` checked, the one of `first` unchecked, the rest kept. */
  function Marked(checked: map<string, bool>, others: seq<string>, first: string): (r: map<string, bool>)
    ensures r.Keys == checked.Keys
  {
    map id | id in checked :: if id in others then true else if id == first then false else checked[id]
  }

  lemma MarkedAt(checked: map<string, bool>, others: seq<string>, first: string, id: string)
    requires id in checked
    ensures Marked(checked, others, first)[id] == if id in others then true else if id == first then false else checked[id]
  {
  }

  /** Every group has a member (`findDuplicates` keeps groups of two or more). */
  predicate NonEmpty(groups: seq<seq<Entry>>) {
    forall i :: 0 <= i < |groups| ==> groups[i] != []
  }

  function KeepAll(checked: map<string, bool>, groups: seq<seq<Entry>>, key: Entry -> int): (r: map<string, bool>)
    requires NonEmpty(groups)
    ensures r.Keys == checked.Keys
  {
    if groups == [] then checked
    else KeepStep(KeepAll(checked, groups[..|groups| - 1], key), groups[|groups| - 1], key)
  }

  predicate IsChecked(checked: map<string, bool>, id: string) {
    id in checked && checked[id]
  }

  /** How many of the group's item checkboxes are checked. */
  function CheckedCount(checked: map<string, bool>, g: seq<Entry>): (k: nat)
    ensures k <= |g|
  {
    if g == [] then 0 else CheckedCount(checked, g[..|g| - 1]) + (if IsChecked(checked, g[|g| - 1].id) then 1 else 0)
  }

  /** The group checkbox after an item changes: checked iff all are, indeterminate iff some but not all are. */
  function GroupBoxOf(checked: map<string, bool>, g: seq<Entry>): GroupBox {
    var k := CheckedCount(checked, g);
    GroupBox(k == |g|, k > 0 && k < |g|)
  }

  lemma CheckedCountBounds(checked: map<string, bool>, g: seq<Entry>)
    ensures CheckedCount(checked, g) == |g| <==> forall e :: e in g ==> IsChecked(checked, e.id)
    ensures CheckedCount(checked, g) > 0 <==> exists e :: e in g && IsChecked(checked, e.id)
  {
    CheckedCountAll(checked, g);
    CheckedCountAny(checked, g);
  }

  /** All boxes are counted exactly when every item is checked. */
  lemma {:induction false} CheckedCountAll(checked: map<string, bool>, g: seq<Entry>)
    ensures CheckedCount(checked, g) == |g| <==> forall e :: e in g ==> IsChecked(checked, e.id)
  {
    if g != [] {
      var init, last := g[..|g| - 1], g[|g| - 1];
      CheckedCountAll(checked, init);
      assert g == init + [last];
      assert forall e :: e in g <==> e in init || e == last;
    }
  }

  /** Some box is counted exactly when some item is checked. */
  lemma {:induction false} CheckedCountAny(checked: map<string, bool>, g: seq<Entry>)
    ensures CheckedCount(checked, g) > 0 <==> exists e :: e in g && IsChecked(checked, e.id)
  {
    if g != [] {
      var init, last := g[..|g| - 1], g[|g| - 1];
      CheckedCountAny(checked, init);
      assert g == init + [last];
      assert forall e :: e in g <==> e in init || e == last;
    }
  }

  /** The group checkbox rule in terms of the items. */
  lemma GroupBoxRule(checked: map<string, bool>, g: seq<Entry>)
    ensures GroupBoxOf(checked, g).checked <==> forall e :: e in g ==> IsChecked(checked, e.id)
    ensures GroupBoxOf(checked, g).indeterminate <==>
              (exists e :: e in g && IsChecked(checked, e.id)) && (exists e :: e in g && !IsChecked(checked, e.id))
  {
    CheckedCountBounds(checked, g);
  }

  class DuplicateManager {
    var duplicateUrls: seq<seq<Entry>>
    var checked: map<string, bool>
    var groupBoxes: seq<GroupBox>

    predicate Valid()
      reads this
    {
      |groupBoxes| == |duplicateUrls| && NonEmpty(duplicateUrls)
    }

    /** A page with no groups rendered yet. */
    constructor ()
      ensures Valid() && duplicateUrls == [] && checked == map[] && groupBoxes == []
    {
      duplicateUrls, checked, groupBoxes := [], map[], [];
    }

    /**
     * `scanDuplicates` over the tree `root`: flatten, group, and render every
     * group with unchecked item and group checkboxes.
     */
    method ScanDuplicates(root: Node)
      modifies this
      ensures Valid()
      ensures duplicateUrls == Duplicates(Entries(root, []))
      ensures forall id :: id in checked <==> exists g :: g in duplicateUrls && id in Ids(g)
      ensures forall id :: id in checked ==> !checked[id]
      ensures forall i :: 0 <= i < |groupBoxes| ==> groupBoxes[i] == GroupBox(false, false)
    {
      var bookmarks := Traverse(root, [], []);
      assert bookmarks == Entries(root, []);
      var groups := FindDuplicates(bookmarks);
      DuplicatesNonEmpty(bookmarks);
      Render(groups);
    }

    /** `renderResults` for `groups`: one unchecked group checkbox per group, one unchecked item checkbox per bookmark. */
    method Render(groups: seq<seq<Entry>>)
      requires NonEmpty(groups)
      modifies this
      ensures Valid()
      ensures duplicateUrls == groups
      ensures forall id :: id in checked <==> exists g :: g in groups && id in Ids(g)
      ensures forall id :: id in checked ==> !checked[id]
      ensures forall i :: 0 <= i < |groupBoxes| ==> groupBoxes[i] == GroupBox(false, false)
    {
      duplicateUrls := groups;
      checked := Unchecked(groups);
      groupBoxes := seq(|groups|, _ => GroupBox(false, false));
    }

    /** `keepNewestBookmarks`. */
    method KeepNewest()
      requires Valid()
      modifies this`checked
      ensures checked == KeepAll(old(checked), duplicateUrls, NewestFirst)
    {
      KeepBy(NewestFirst);
    }

    /** `keepOldestBookmarks`. */
    method KeepOldest()
      requires Valid()
      modifies this`checked
      ensures checked == KeepAll(old(checked), duplicateUrls, OldestFirst)
    {
      KeepBy(OldestFirst);
    }

    method KeepBy(key: Entry -> int)
      requires Valid()
      modifies this`checked
      ensures checked == KeepAll(old(checked), duplicateUrls, key)
    {
      for i := 0 to |duplicateUrls|
        invariant checked == KeepAll(old(checked), duplicateUrls[..i], key)
      {
        assert duplicateUrls[..i + 1][..i] == duplicateUrls[..i];
        var g := duplicateUrls[i];
        var sorted := SortBy(g, key);
        var others := Ids(sorted[1..]);
        var first := sorted[0];
        checked := map id | id in checked :: if id in others then true else if id == first.id then false else checked[id];
      }
      assert duplicateUrls[..|duplicateUrls|] == duplicateUrls;
    }

    /** `cancelSelection`: every item and group checkbox unchecked, none indeterminate. */
    method CancelSelection()
      modifies this`checked, this`groupBoxes
      ensures checked.Keys == old(checked).Keys && forall id :: id in checked ==> !checked[id]
      ensures |groupBoxes| == old(|groupBoxes|) && forall i :: 0 <= i < |groupBoxes| ==> groupBoxes[i] == GroupBox(false, false)
    {
      checked := map id | id in checked :: false;
      groupBoxes := seq(|groupBoxes|, _ => GroupBox(false, false));
    }

    /** The `change` listener on a group's items: recount and set the group checkbox. */
    method ItemChanged(gi: nat)
      requires Valid() && gi < |duplicateUrls|
      modifies this`groupBoxes
      ensures groupBoxes == old(groupBoxes)[gi := GroupBoxOf(checked, duplicateUrls[gi])]
    {
      var g := duplicateUrls[gi];
      var count := 0;
      for k := 0 to |g|
        invariant count == CheckedCount(checked, g[..k])
      {
        assert g[..k + 1][..k] == g[..k];
        if g[k].id in checked && checked[g[k].id] {
          count := count + 1;
        }
      }
      assert g[..|g|] == g;
      groupBoxes := groupBoxes[gi := GroupBox(count == |g|, count > 0 && count < |g|)];
    }

    /**
     * A click on a group checkbox: the click leaves the box `value` and not
     * indeterminate, and its `change` listener gives every item of the group
     * that state. Setting the items from script fires no item listener, so
     * the other group boxes stay as they were.
     */
    method GroupChanged(gi: nat, value: bool)
      requires Valid() && gi < |duplicateUrls|
      modifies this`checked, this`groupBoxes
      ensures checked.Keys == old(checked).Keys
      ensures forall id :: id in checked ==> checked[id] == if id in Ids(duplicateUrls[gi]) then value else old(checked)[id]
      ensures groupBoxes == old(groupBoxes)[gi := GroupBox(value, false)]
    {
      groupBoxes := groupBoxes[gi := GroupBox(value, false)];
      var ids := Ids(duplicateUrls[gi]);
      checked := map id | id in checked :: if id in ids then value else checked[id];
    }
  }

  /** The ids of all groups, concatenated. */
  function AllIds(groups: seq<seq<Entry>>): seq<string> {
    if groups == [] then [] else AllIds(groups[..|groups| - 1]) + Ids(groups[|groups| - 1])
  }

  /** Every group `findDuplicates` returns has a first element. */
  lemma DuplicatesNonEmpty(bs: seq<Entry>)
    ensures NonEmpty(Duplicates(bs))
  {
    forall i | 0 <= i < |Duplicates(bs)|
      ensures Duplicates(bs)[i] != []
    {
      DuplicateGroupsShareUrl(bs, Duplicates(bs)[i]);
    }
  }

  /** The item checkboxes as rendered: one unchecked box per bookmark of a group, none other. */
  function Unchecked(groups: seq<seq<Entry>>): (m: map<string, bool>)
    ensures forall id :: id in m <==> exists g :: g in groups && id in Ids(g)
    ensures forall id :: id in m ==> !m[id]
  {
    var m := map id | id in AllIds(groups) :: false;
    assert forall id :: id in m <==> exists g :: g in groups && id in Ids(g) by {
      forall id
        ensures id in m <==> exists g :: g in groups && id in Ids(g)
      {
        AllIdsMember(groups, id);
      }
    }
    m
  }

  lemma {:induction false} AllIdsMember(groups: seq<seq<Entry>>, id: string)
    ensures id in AllIds(groups) <==> exists g :: g in groups && id in Ids(g)
  {
    if groups != [] {
      var init, last := groups[..|groups| - 1], groups[|groups| - 1];
      AllIdsMember(init, id);
      assert AllIds(groups) == AllIds(init) + Ids(last);
      if exists g :: g in groups && id in Ids(g) {
        var g :| g in groups && id in Ids(g);
        var i :| 0 <= i < |groups| && groups[i] == g;
        if i < |init| {
          assert init[i] == g;
        }
      }
      if exists g :: g in init && id in Ids(g) {
        var g :| g in init && id in Ids(g);
        var i :| 0 <= i < |init| && init[i] == g;
        assert groups[i] == g;
      }
    }
  }

  // ------------------------------------------- what keep newest / oldest keep

  /** The entry `[...group].sort(...)[0]` picks: the first entry of the group with the least key. */
  lemma SortedFirst(g: seq<Entry>, key: Entry -> int)
    requires g != []
    ensures exists i :: 0 <= i < |g| && SortBy(g, key)[0] == g[i]
              && (forall j :: 0 <= j < |g| ==> key(g[i]) <= key(g[j]))
              && (forall j :: 0 <= j < i ==> key(g[j]) > key(g[i]))
  {
    var s := SortBy(g, key);
    SortByCorrect(g, key);
    var k0 := key(s[0]);
    SortByStable(g, key, k0);
    WithKeyHead(s, key);
    var i := WithKeyFirst(g, key, k0);
    forall j | 0 <= j < |g|
      ensures key(g[i]) <= key(g[j])
    {
      var t := PermIndex(g, s, j);
      if t > 0 {
        assert key(s[0]) <= key(s[t]);
      }
    }
  }

  lemma {:induction false} WithKeyHead<T>(s: seq<T>, key: T -> int)
    requires s != []
    ensures WithKey(s, key, key(s[0])) != [] && WithKey(s, key, key(s[0]))[0] == s[0]
  {
    if |s| > 1 {
      var init := s[..|s| - 1];
      WithKeyHead(init, key);
      assert init[0] == s[0];
    }
  }

  /** The first element of `WithKey` is the first element of `s` with that key. */
  lemma {:induction false} WithKeyFirst<T>(s: seq<T>, key: T -> int, k: int) returns (i: nat)
    requires WithKey(s, key, k) != []
    ensures i < |s| && WithKey(s, key, k)[0] == s[i] && key(s[i]) == k
    ensures forall j :: 0 <= j < i ==> key(s[j]) != k
  {
    var init := s[..|s| - 1];
    if WithKey(init, key, k) != [] {
      i := WithKeyFirst(init, key, k);
      assert s[i] == init[i];
      forall j | 0 <= j < i
        ensures key(s[j]) != k
      {
        assert s[j] == init[j];
      }
    } else {
      i := |s| - 1;
      forall j | 0 <= j < i
        ensures key(s[j]) != k
      {
        WithKeyNone(init, key, k, j);
        assert s[j] == init[j];
      }
    }
  }

  lemma {:induction false} WithKeyNone<T>(s: seq<T>, key: T -> int, k: int, j: nat)
    requires WithKey(s, key, k) == [] && j < |s|
    ensures key(s[j]) != k
  {
    var init := s[..|s| - 1];
    if j < |init| {
      WithKeyNone(init, key, k, j);
      assert s[j] == init[j];
    }
  }

  /** Every entry of a permutation of the group carries an id of the group. */
  lemma PermutedIdsIn(g: seq<Entry>, s: seq<Entry>, t: nat)
    requires multiset(s) == multiset(g) && t < |s|
    ensures s[t].id in Ids(g)
  {
    assert s[t] in multiset(g);
    var a :| 0 <= a < |g| && g[a] == s[t];
    assert Ids(g)[a] == g[a].id;
  }

  /** The entry ordered first is left unchecked. */
  lemma MarkedFirst(checked: map<string, bool>, g: seq<Entry>, s: seq<Entry>)
    requires multiset(s) == multiset(g) && s != [] && s[0].id in checked
    requires forall i, j :: 0 <= i < j < |g| ==> g[i].id != g[j].id
    ensures !Marked(checked, Ids(s[1..]), s[0].id)[s[0].id]
  {
    var others := Ids(s[1..]);
    forall k | 0 <= k < |others|
      ensures others[k] != s[0].id
    {
      SortedIdsDistinct(g, s, 0, k + 1);
    }
    MarkedAt(checked, others, s[0].id, s[0].id);
  }

  /** Every other member of the group is checked. */
  lemma MarkedOthers(checked: map<string, bool>, g: seq<Entry>, s: seq<Entry>, id: string)
    requires multiset(s) == multiset(g) && s != [] && id in checked
    requires id in Ids(g) && id != s[0].id
    ensures Marked(checked, Ids(s[1..]), s[0].id)[id]
  {
    var a :| 0 <= a < |g| && Ids(g)[a] == id;
    assert g[a] in multiset(s);
    var t :| 0 <= t < |s| && s[t] == g[a];
    assert Ids(s[1..])[t - 1] == id;
    MarkedAt(checked, Ids(s[1..]), s[0].id, id);
  }

  /** A checkbox outside the group keeps its state. */
  lemma MarkedOutside(checked: map<string, bool>, g: seq<Entry>, s: seq<Entry>, id: string)
    requires multiset(s) == multiset(g) && s != [] && id in checked && id !in Ids(g)
    ensures Marked(checked, Ids(s[1..]), s[0].id)[id] == checked[id]
  {
    var others := Ids(s[1..]);
    PermutedIdsIn(g, s, 0);
    forall k | 0 <= k < |others|
      ensures others[k] != id
    {
      PermutedIdsIn(g, s, k + 1);
    }
    MarkedAt(checked, others, s[0].id, id);
  }

  /** One group's step: the first entry of the sort is unchecked, the others checked, every other checkbox kept. */
  lemma KeepStepEffect(checked: map<string, bool>, g: seq<Entry>, key: Entry -> int, id: string)
    requires g != [] && id in checked
    requires forall i, j :: 0 <= i < j < |g| ==> g[i].id != g[j].id
    ensures id == SortBy(g, key)[0].id ==> !KeepStep(checked, g, key)[id]
    ensures id in Ids(g) && id != SortBy(g, key)[0].id ==> KeepStep(checked, g, key)[id]
    ensures id !in Ids(g) ==> KeepStep(checked, g, key)[id] == checked[id]
  {
    var s := SortBy(g, key);
    SortByCorrect(g, key);
    assert KeepStep(checked, g, key) == Marked(checked, Ids(s[1..]), s[0].id);
    if id == s[0].id {
      PermutedIdsIn(g, s, 0);
      MarkedFirst(checked, g, s);
    } else if id in Ids(g) {
      MarkedOthers(checked, g, s, id);
    } else {
      MarkedOutside(checked, g, s, id);
    }
  }

  /** No bookmark id occurs twice across the groups (the browser's ids are unique). */
  predicate UniqueIds(groups: seq<seq<Entry>>) {
    forall gi, gj, a, b ::
      (0 <= gi < |groups| && 0 <= gj < |groups| && 0 <= a < |groups[gi]| && 0 <= b < |groups[gj]| && (gi != gj || a != b))
      ==> groups[gi][a].id != groups[gj][b].id
  }

  lemma UniqueIdsPrefix(groups: seq<seq<Entry>>, n: nat)
    requires UniqueIds(groups) && n <= |groups|
    ensures UniqueIds(groups[..n])
  {
    var init: seq<seq<Entry>> := groups[..n];
    forall gi: int, gj: int, a: int, b: int | 0 <= gi < |init| && 0 <= gj < |init| && 0 <= a < |init[gi]| && 0 <= b < |init[gj]| && (gi != gj || a != b)
      ensures init[gi][a].id != init[gj][b].id
    {
      assert init[gi] == groups[gi] && init[gj] == groups[gj];
    }
  }

  /** A checkbox of a bookmark in no group keeps its state through "keep newest" or "keep oldest". */
  lemma {:induction false} KeepAllUntouched(checked: map<string, bool>, groups: seq<seq<Entry>>, key: Entry -> int, id: string)
    requires NonEmpty(groups) && id in checked
    requires forall i :: 0 <= i < |groups| ==> id !in Ids(groups[i])
    ensures KeepAll(checked, groups, key)[id] == checked[id]
  {
    if groups != [] {
      var init, last := groups[..|groups| - 1], groups[|groups| - 1];
      KeepAllUntouched(checked, init, key, id);
      var s := SortBy(last, key);
      SortByCorrect(last, key);
      MarkedOutside(KeepAll(checked, init, key), last, s, id);
    }
  }

  /**
   * After "keep newest" or "keep oldest", a bookmark of a group is left
   * unchecked iff it is the one the group's stable sort puts first; every
   * other member of the group is checked.
   */
  lemma {:induction false} KeepAllSettled(checked: map<string, bool>, groups: seq<seq<Entry>>, key: Entry -> int, gi: nat, id: string)
    requires NonEmpty(groups) && UniqueIds(groups) && id in checked
    requires gi < |groups| && id in Ids(groups[gi])
    ensures KeepAll(checked, groups, key)[id] == (id != SortBy(groups[gi], key)[0].id)
  {
    var init, last := groups[..|groups| - 1], groups[|groups| - 1];
    var prev := KeepAll(checked, init, key);
    if gi == |groups| - 1 {
      GroupIdsDistinct(groups, gi);
      KeepStepEffect(prev, last, key, id);
    } else {
      IdNotInOtherGroup(groups, gi, |groups| - 1, id);
      var s := SortBy(last, key);
      SortByCorrect(last, key);
      MarkedOutside(prev, last, s, id);
      UniqueIdsPrefix(groups, |groups| - 1);
      assert init[gi] == groups[gi];
      KeepAllSettled(checked, init, key, gi, id);
    }
  }

  /** Within one group the ids are distinct. */
  lemma GroupIdsDistinct(groups: seq<seq<Entry>>, gi: nat)
    requires UniqueIds(groups) && gi < |groups|
    ensures forall i, j :: 0 <= i < j < |groups[gi]| ==> groups[gi][i].id != groups[gi][j].id
  {
  }

  /** An id of one group is no id of another. */
  lemma IdNotInOtherGroup(groups: seq<seq<Entry>>, gi: nat, gj: nat, id: string)
    requires UniqueIds(groups) && gi < |groups| && gj < |groups| && gi != gj
    requires id in Ids(groups[gi])
    ensures forall b :: 0 <= b < |groups[gj]| ==> Ids(groups[gj])[b] != id
  {
    var a :| 0 <= a < |groups[gi]| && Ids(groups[gi])[a] == id;
    forall b | 0 <= b < |groups[gj]|
      ensures Ids(groups[gj])[b] != id
    {
      assert groups[gi][a].id != groups[gj][b].id;
    }
  }

  /** Distinct ids in `g` stay distinct in any permutation of it. */
  lemma SortedIdsDistinct(g: seq<Entry>, s: seq<Entry>, x: nat, y: nat)
    requires forall i, j :: 0 <= i < j < |g| ==> g[i].id != g[j].id
    requires multiset(s) == multiset(g) && x < y < |s|
    ensures s[x].id != s[y].id
  {
    assert s[x] in multiset(g) && s[y] in multiset(g);
    var a :| 0 <= a < |g| && g[a] == s[x];
    var b :| 0 <= b < |g| && g[b] == s[y];
    if a == b {
      SortedDistinct(g, s, x, y);
    }
  }

  /** An element of a sequence without repeats occurs once in any permutation of it. */
  lemma SortedDistinct(g: seq<Entry>, s: seq<Entry>, x: nat, y: nat)
    requires forall i, j :: 0 <= i < j < |g| ==> g[i].id != g[j].id
    requires multiset(s) == multiset(g) && x < y < |s|
    ensures s[x] != s[y]
  {
    if s[x] == s[y] {
      var e := s[x];
      assert s == s[..y] + s[y..];
      assert e in s[..y] && e in s[y..];
      assert multiset(s)[e] == multiset(s[..y])[e] + multiset(s[y..])[e];
      assert multiset(g)[e] >= 2;
      OnceInDistinct(g, e);
    }
  }

  lemma {:induction false} OnceInDistinct(g: seq<Entry>, e: Entry)
    requires forall i, j :: 0 <= i < j < |g| ==> g[i].id != g[j].id
    ensures multiset(g)[e] <= 1
  {
    if g != [] {
      var init := g[..|g| - 1];
      OnceInDistinct(init, e);
      assert g == init + [g[|g| - 1]];
    }
  }

  // ------------------------------------------------- one group per bookmark

  /** No two entries share an id (the browser gives every node its own id). */
  predicate DistinctIds(es: seq<Entry>) {
    forall i, j :: 0 <= i < j < |es| ==> es[i].id != es[j].id
  }

  /** No group occurs twice. */
  predicate NoRepeats(gs: seq<seq<Entry>>) {
    forall i, j :: 0 <= i < j < |gs| ==> gs[i] != gs[j]
  }

  lemma {:induction false} ValuesAt(m: Groups, i: nat)
    requires i < |m|
    ensures Values(m)[i] == m[i].1
  {
    if i < |m| - 1 {
      ValuesAt(m[..|m| - 1], i);
    }
  }

  /** Two keys of the map never hold the same non-empty group. */
  lemma GroupMapValuesDiffer(bs: seq<Entry>, i: nat, j: nat)
    requires i < j < |GroupMap(bs)| && GroupMap(bs)[i].1 != []
    ensures GroupMap(bs)[i].1 != GroupMap(bs)[j].1
  {
    var m := GroupMap(bs);
    GroupMapDistinct(bs);
    GroupMapValue(bs, i);
    GroupMapValue(bs, j);
    var e := m[i].1[0];
    SameUrlMember(bs, m[i].0, e);
    SameUrlMember(bs, m[j].0, e);
  }

  lemma {:induction false} LongGroupsNoRepeats(gs: seq<seq<Entry>>)
    requires forall i, j :: 0 <= i < j < |gs| && |gs[i]| > 1 ==> gs[i] != gs[j]
    ensures NoRepeats(LongGroups(gs))
  {
    if gs != [] {
      var init, g := gs[..|gs| - 1], gs[|gs| - 1];
      LongGroupsNoRepeats(init);
      if |g| > 1 {
        var l := LongGroups(init);
        forall i | 0 <= i < |l|
          ensures l[i] != g
        {
          LongGroupsMember(init, l[i]);
          var k :| 0 <= k < |init| && init[k] == l[i];
          assert gs[k] == l[i];
        }
      }
    }
  }

  lemma {:induction false} OnceInNoRepeats(gs: seq<seq<Entry>>, g: seq<Entry>)
    requires NoRepeats(gs)
    ensures multiset(gs)[g] <= 1
  {
    if gs != [] {
      var init := gs[..|gs| - 1];
      OnceInNoRepeats(init, g);
      assert gs == init + [gs[|gs| - 1]];
      if gs[|gs| - 1] == g {
        forall k | 0 <= k < |init|
          ensures init[k] != g
        {
          assert init[k] == gs[k];
        }
        assert g !in init;
      }
    }
  }

  /** `findDuplicates` returns no group twice. */
  lemma DuplicatesNoRepeats(bs: seq<Entry>)
    ensures NoRepeats(Duplicates(bs))
  {
    var m := GroupMap(bs);
    var vs := Values(m);
    forall i, j | 0 <= i < j < |vs| && |vs[i]| > 1
      ensures vs[i] != vs[j]
    {
      ValuesAt(m, i);
      ValuesAt(m, j);
      GroupMapValuesDiffer(bs, i, j);
    }
    LongGroupsNoRepeats(vs);
    SortByCorrect(LongGroups(vs), BySizeDescending);
    PermutedNoRepeats(Duplicates(bs), LongGroups(vs));
  }

  /** A permutation of a list without repeats has none. */
  lemma PermutedNoRepeats(d: seq<seq<Entry>>, l: seq<seq<Entry>>)
    requires multiset(d) == multiset(l) && NoRepeats(l)
    ensures NoRepeats(d)
  {
    forall i, j | 0 <= i < j < |d|
      ensures d[i] != d[j]
    {
      var g := d[i];
      assert d == d[..j] + d[j..];
      assert multiset(d)[g] == multiset(d[..j])[g] + multiset(d[j..])[g];
      assert g in d[..j] && d[j] in d[j..];
      OnceInNoRepeats(l, g);
    }
  }

  lemma {:induction false} SameUrlDistinct(bs: seq<Entry>, u: string)
    requires DistinctIds(bs)
    ensures DistinctIds(SameUrl(bs, u))
  {
    if bs != [] {
      var init, last := bs[..|bs| - 1], bs[|bs| - 1];
      SameUrlDistinct(init, u);
      var s := SameUrl(init, u);
      if Trim(last.url) == u {
        var r := SameUrl(bs, u);
        assert r == s + [last];
        forall i, j | 0 <= i < j < |r|
          ensures r[i].id != r[j].id
        {
          assert r[i] == s[i];
          if j < |s| {
            assert r[j] == s[j];
          } else {
            SameUrlMember(init, u, s[i]);
            var k :| 0 <= k < |init| && init[k] == s[i];
            assert bs[k] == init[k];
          }
        }
      } else {
        assert SameUrl(bs, u) == s;
      }
    }
  }

  /** Two entries of a list without repeated ids that share an id are the same entry. */
  lemma SameIdSameEntry(bs: seq<Entry>, x: Entry, y: Entry)
    requires DistinctIds(bs) && x in bs && y in bs
    ensures x.id == y.id ==> x == y
  {
    var p :| 0 <= p < |bs| && bs[p] == x;
    var q :| 0 <= q < |bs| && bs[q] == y;
    assert p < q ==> bs[p].id != bs[q].id;
    assert q < p ==> bs[q].id != bs[p].id;
  }

  /**
   * When the flattened bookmarks have distinct ids, no id occurs twice across
   * the groups `findDuplicates` returns: each bookmark is in at most one
   * group, and at most once in it.
   */
  lemma DuplicatesUniqueIds(bs: seq<Entry>)
    requires DistinctIds(bs)
    ensures UniqueIds(Duplicates(bs))
  {
    var d: seq<seq<Entry>> := Duplicates(bs);
    DuplicatesNoRepeats(bs);
    forall g: seq<Entry> | g in d
      ensures g != [] && g == SameUrl(bs, Trim(g[0].url))
    {
      DuplicateGroupsShareUrl(bs, g);
    }
    forall gi: int, gj: int, a: int, b: int | 0 <= gi < |d| && 0 <= gj < |d| && 0 <= a < |d[gi]| && 0 <= b < |d[gj]| && (gi != gj || a != b)
      ensures d[gi][a].id != d[gj][b].id
    {
      MembersDiffer(bs, d, gi, gj, a, b);
    }
  }

  /** In distinct groups of bookmarks sharing a URL, two places hold bookmarks with different ids. */
  lemma MembersDiffer(bs: seq<Entry>, d: seq<seq<Entry>>, gi: nat, gj: nat, a: nat, b: nat)
    requires DistinctIds(bs) && NoRepeats(d)
    requires forall g: seq<Entry> :: g in d ==> g != [] && g == SameUrl(bs, Trim(g[0].url))
    requires gi < |d| && gj < |d| && a < |d[gi]| && b < |d[gj]| && (gi != gj || a != b)
    ensures d[gi][a].id != d[gj][b].id
  {
    var x, y := d[gi][a], d[gj][b];
    assert d[gi] in d && d[gj] in d;
    var ui, uj := Trim(d[gi][0].url), Trim(d[gj][0].url);
    SameUrlMember(bs, ui, x);
    SameUrlMember(bs, uj, y);
    SameIdSameEntry(bs, x, y);
    if gi == gj {
      SameUrlDistinct(bs, ui);
      assert a < b ==> d[gi][a].id != d[gi][b].id;
      assert b < a ==> d[gi][b].id != d[gi][a].id;
    } else {
      SameUrlMember(bs, uj, x);
      var gx, gy := d[gi], d[gj];
      // the same entry in two groups would make the groups equal
      assert x == y ==> gx == gy;
      assert gi < gj ==> gx != gy;
      assert gj < gi ==> gy != gx;
    }
  }

  /** A bookmark found in two groups was found in one group. */
  lemma OneGroupPerBookmark(bs: seq<Entry>, gi: nat, gj: nat, e: Entry)
    requires DistinctIds(bs)
    requires gi < |Duplicates(bs)| && gj < |Duplicates(bs)|
    requires e in Duplicates(bs)[gi] && e in Duplicates(bs)[gj]
    ensures gi == gj
  {
    DuplicatesUniqueIds(bs);
    var d: seq<seq<Entry>> := Duplicates(bs);
    var a :| 0 <= a < |d[gi]| && d[gi][a] == e;
    var b :| 0 <= b < |d[gj]| && d[gj][b] == e;
    assert d[gi][a].id == d[gj][b].id;
  }

  /**
   * "Keep newest" or "keep oldest" over the groups of a scan whose bookmarks
   * have distinct ids: in every group exactly the bookmark the group's stable
   * sort puts first is left unchecked, and every other member is checked.
   */
  lemma KeepAfterScan(bs: seq<Entry>, checked: map<string, bool>, key: Entry -> int, gi: nat, id: string)
    requires DistinctIds(bs) && id in checked
    requires gi < |Duplicates(bs)| && id in Ids(Duplicates(bs)[gi])
    ensures NonEmpty(Duplicates(bs)) && KeepAll(checked, Duplicates(bs), key)[id] == (id != SortBy(Duplicates(bs)[gi], key)[0].id)
  {
    DuplicatesNonEmpty(bs);
    DuplicatesUniqueIds(bs);
    KeepAllSettled(checked, Duplicates(bs), key, gi, id);
  }
}
