/**
 * The bookmark tree as the browser's bookmark store hands it over, and the
 * two small classifications that the scan page, the profile page and the
 * duplicate finder share: special-protocol URLs and reserved folders.
 */
module Bookmarks {
  import opened Strings

  /**
   * One node of the bookmark tree. JavaScript leaves `url` undefined on a
   * folder and `children` undefined on a bookmark; here the empty `url`
   * stands for a missing (falsy) URL, `hasChildren` says whether the node
   * carries a `children` array, and `dateAdded == 0` stands for a missing
   * (falsy) creation time, in milliseconds since the epoch.
   */
  datatype Node = Node(
    id: string,
    title: string,
    url: string,
    dateAdded: int,
    hasChildren: bool,
    children: seq<Node>)
  {
    /** `node.url` is truthy: the walkers treat the node as a bookmark. */
    predicate IsBookmark() { url != "" }
  }

  /** `CONFIG.validProtocols` of the scan page and of the profile page. */
  const ValidProtocols: seq<string> := [
    "chrome:", "chrome-extension:", "file:", "javascript:", "data:",
    "about:", "edge:", "brave:", "firefox:", "moz-extension:"]

  /** `protocols.some(p => url.startsWith(p))`. */
  predicate HasProtocolPrefix(url: string, protocols: seq<string>) {
    exists p :: p in protocols && StartsWith(url, p)
  }

  /** A bookmark the scan sends to the background for a live check. */
  predicate IsCheckable(url: string) {
    !HasProtocolPrefix(url, ValidProtocols)
  }

  /** `isSpecialFolder`: the root, the bookmarks bar, other bookmarks and mobile bookmarks. */
  predicate IsSpecialFolder(id: string) {
    id in ["0", "1", "2", "3"]
  }
}
