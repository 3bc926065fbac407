# Meow bookmark checker — a verified model

Meow is a browser extension that looks after the user's bookmarks. This
project models the core of it in Dafny and proves properties of that model.
It covers six parts:

- **The background script** (`background.js`) checks whether a bookmark's
  URL is still alive. It races four `webRequest` listeners, a `fetch` probe
  and a timer, and the first verdict settles the check's promise. It also
  keeps the set of abort controllers that a `cancelScan` message aborts.
  Two helpers, `cleanupUrl` and `isSPAUrl`, normalise URLs.
- **The scan page** (`index.js`) walks the bookmark tree and sends the
  checkable bookmarks to the background in batches of 30. It lists the
  invalid bookmarks and the empty folders. It also shows the scan duration,
  localises error reasons, escapes HTML, and runs the filter and
  select-all controls.
- **The profile page** (`bookmarkProfile.js`) computes statistics over the
  tree. These are the date range, counts per year, folder and link
  statistics, keywords, duplicate URLs, the collector level and the
  category tags.
- **The duplicate finder** (`duplicates.js`) flattens the tree and groups
  bookmarks by trimmed URL. It keeps the groups of two or more, sorts them
  by size, and drives the group and item checkboxes ("keep newest", "keep
  oldest", "cancel selection").
- **The settings** (`settings.js`) store the check timeout and the
  "has scanned" flag in extension storage.
- **The link preview** (`preview.js`) is a hover window with a 500 ms
  show delay and a 300 ms hide delay, placed beside the link and clamped
  to the viewport.

Modules:

- `Strings`, `Wrappers` and `Bookmarks` hold the shared vocabulary: text
  helpers, `Option`/`Result`, and the bookmark tree `Node`.
- `Counters` models a JavaScript `Map` used as a counter.
- `Sorting` models the stable `Array.prototype.sort` by a numeric key.
- `Verdicts`, `UrlCheck`, `Registry` and `UrlHelpers` model the background
  script.
- `Scan` and `ScanView` model the scan page.
- `Profile`, `ProfileStats` and `Tags` model the profile page.
- `Duplicates`, `Settings` and `Preview` model the other three pages.

Code that updates state step by step is modelled as classes. These are
`UrlCheck.UrlCheckRun`, `Registry.Background`, `Scan.ScanSession`,
`ScanView.ResultList`, `Profile.DateRange`, `Profile.YearCounter`,
`ProfileStats.StatsCollector`, `Duplicates.DuplicateManager`,
`Settings.SettingsStore` and `Preview.BookmarkPreview`. Each of them is
proved against a pure function: a step function, a fold or a reference
definition, with the properties proved as lemmas about that function.

Several things become parameters:

- URL parsing (`new URL`), the clock, `browser.i18n.getMessage`, the
  year and day of a timestamp, storage failures and each check's outcome;
- the order in which browser events arrive, which is a sequence of events.

Paths below are relative to the repository root.

## Model

| member | source | states |
|---|---|---|
| Strings.TrimStart | src/scripts/duplicates.js:129 | The result is a suffix of the input that does not start with white space; only white space was dropped. |
| Strings.TrimEnd | src/scripts/duplicates.js:129 | The result is a prefix of the input that does not end with white space; only white space was dropped. |
| Strings.Trim | src/scripts/duplicates.js:129 | `trim()` never lengthens the text, and a non-empty result neither starts nor ends with white space. |
| Strings.Lower | src/scripts/bookmarkProfile.js:1017 | `toLowerCase()` keeps the length and lower-cases each character in place. |
| Strings.ReplaceChar | src/scripts/index.js:960-965 | A global one-character `replace` leaves text without that character unchanged. |
| Strings.NatToString | src/background/background.js:280 | The decimal rendering of a number is non-empty and made only of digits. |
| Strings.IntToString | src/background/background.js:436 | The rendering of a status code is never empty. |
| Strings.DigitRoundTrip | src/scripts/index.js:49 | Reading back a rendered digit gives the digit. |
| Strings.ParseNatToString | src/scripts/index.js:49 | Reading back the decimal rendering of `n` gives `n`: the scan page recovers the code the background wrote. |
| Strings.NatToStringInjective | src/scripts/index.js:49 | Two status codes with the same decimal text are the same code. |
| Counters.Bump | src/scripts/bookmarkProfile.js:1006 | `map.set(k, (map.get(k) \|\| 0) + 1)` adds an entry exactly when the key is new. |
| Counters.Occurrences | src/scripts/bookmarkProfile.js:1006 | A key occurs no more often than the list is long. |
| Counters.OccurrencesAppend | src/scripts/bookmarkProfile.js:1006 | Occurrences in a concatenation add up. |
| Counters.GetBump | src/scripts/bookmarkProfile.js:1006 | One increment adds one to its own key's count and leaves every other count alone. |
| Counters.GetBumpAll | src/scripts/bookmarkProfile.js:1019 | After counting a list of keys, each key's count has grown by its number of occurrences. |
| Counters.BumpAllAppend | src/scripts/bookmarkProfile.js:1019 | Counting two lists in turn is counting their concatenation. |
| Counters.BumpDistinct | src/scripts/bookmarkProfile.js:1006 | An increment keeps the map's keys distinct. |
| Counters.KeyOfBump | src/scripts/bookmarkProfile.js:1006 | Every key after an increment is the incremented key or an old key. |
| Counters.BumpAllDistinct | src/scripts/bookmarkProfile.js:1019 | Counting a whole list keeps the keys distinct. |
| Counters.EntryIsGet | src/scripts/bookmarkProfile.js:1006 | An entry's count is what `get` answers for its key. |
| Counters.PermutedCounts | src/scripts/bookmarkProfile.js:1203-1209 | In any reordering of a counter, each entry still holds its key's number of occurrences. |
| Sorting.WithKey | src/scripts/duplicates.js:136-138 | Selecting the elements with one key never gives more elements than the input has. |
| Sorting.Insert | src/scripts/duplicates.js:136-138 | One insertion step adds exactly one element. |
| Sorting.SortBy | src/scripts/duplicates.js:136-138 | The sort keeps the length. |
| Sorting.InsertPerm | src/scripts/duplicates.js:136-138 | An insertion adds exactly the inserted element to the multiset. |
| Sorting.InsertSorted | src/scripts/duplicates.js:136-138 | Inserting into a sorted sequence keeps it sorted. |
| Sorting.InsertWithKey | src/scripts/duplicates.js:136-138 | An insertion puts the new element after every element with the same key. |
| Sorting.SortByCorrect | src/scripts/duplicates.js:136-138 | `sort` by a numeric key returns its input sorted by key, and as a permutation of it. |
| Sorting.SortByStable | src/scripts/duplicates.js:136-138 | The sort is stable: elements with equal keys keep their input order. |
| Verdicts.StatusCodeReason | src/background/background.js:430-437 | 401, 403 and 429 get their fixed phrases; every other code reads "Status code: N". |
| Verdicts.HandleStatusCode | src/background/background.js:439-484 | 2xx and 3xx are valid. 401/403/405-408/429 are valid with a reason. 503/504 and 502 are valid and 501 is invalid, each with its message. Every other 5xx is invalid with the message "Server Error". The result is null exactly below 200 or for the remaining 4xx. |
| Verdicts.ResponseVerdict | src/background/background.js:260-282 | A null verdict becomes "HTTP Error: N". A redirected check carries the final URL as `redirectUrl`, with "Redirected to" as a fallback reason. |
| Verdicts.Categorize | src/background/background.js:194-216 | The error groups are tried in order: connection, then access, then certificate, else other. |
| Verdicts.Scheme | src/background/background.js:218 | The scheme is no longer than the URL. |
| Verdicts.SchemeRaw | src/background/background.js:218 | The scheme is the prefix up to and including the first colon, or empty when there is no colon. |
| Verdicts.FlipScheme | src/background/background.js:217-218 | The alternate URL starts with the flipped scheme. |
| Verdicts.SchemeRawOf | src/background/background.js:218 | The scheme of `p:rest` is `p:` when `p` holds no colon. |
| Verdicts.LowerKeeps | src/background/background.js:218 | Lower-casing leaves lower-case text as it is. |
| Verdicts.SchemeOfWeb | src/background/background.js:218 | The scheme of an `http:` or `https:` URL is that prefix. |
| Verdicts.FlipSchemeOf | src/background/background.js:217-218 | Flipping swaps http and https and keeps the rest of the URL. |
| Verdicts.FlipSchemeTwice | src/background/background.js:217-218 | Flipping the scheme of a web URL twice gives the URL back. |
| Verdicts.ErrorVerdict | src/background/background.js:216-244 | A network error is valid iff it is in one of the three groups. Only connection errors carry an alternate URL, with the flipped scheme; an unknown error is invalid with the error as its reason. |
| Verdicts.SameSpecialProtocols | src/background/background.js:129-135 | The background's special-protocol list and the scan page's `validProtocols` accept the same URLs. |
| UrlCheck.Init | src/background/background.js:143-156 | A check starts unsettled, unresolved, without response, and with `finalUrl` the URL itself. |
| UrlCheck.CheckUrlOnce | src/background/background.js:134-141 | An unparsable URL is invalid at once ("Invalid URL format"). A special-protocol URL is valid at once. Anything else starts a pending check. |
| UrlCheck.Step | src/background/background.js:183-417 | A settled promise never changes. `isResolved` and `hasResponse` never revert. The guarded listeners do nothing once resolved. Each event has its listener's effect. |
| UrlCheck.RedirectStep | src/background/background.js:247-258 | The unguarded redirect listener records the redirect, updates `finalUrl` and marks a response; it settles nothing. |
| UrlCheck.ErrorStep | src/background/background.js:183-245 | An unresolved, attached check settles with the error's verdict; a resolved one is unchanged. |
| UrlCheck.FetchResolvedStep | src/background/background.js:395-401 | A resolved fetch only marks a response. |
| UrlCheck.FetchRejectedStep | src/background/background.js:402-417 | Only the opaque "TypeError: Failed to fetch" settles the check as valid; other rejections change nothing. |
| UrlCheck.TimerStep | src/background/background.js:335-361 | With no response, the timer aborts the fetch, detaches the listeners and settles "Request Timeout" without setting `isResolved`. With a response it settles "responding but slow". It fires once. |
| UrlCheck.Run | src/background/background.js:143-418 | The state of `checkUrlOnce`'s closure after a sequence of events. `RunSnoc`, `RunConsistent`, `SettledIsFinal` and `FirstVerdictWins` characterise it. |
| UrlCheck.RunSnoc | src/background/background.js:143-418 | Running one more event is one more step. |
| UrlCheck.RunAppend | src/background/background.js:143-418 | Running two event sequences in turn is running their concatenation. |
| UrlCheck.SettledIsFinal | src/background/background.js:284-296 | Once the promise settles, no later events change its value. |
| UrlCheck.FirstVerdictWins | src/background/background.js:284-296 | The first verdict delivered is the check's answer, whatever follows. |
| UrlCheck.RunConsistent | src/background/background.js:284-361 | The invariant holds after any events: the promise has settled exactly when `isResolved` is set or the timer has detached the listeners, and the fetch is aborted exactly when they were detached. |
| UrlCheck.PendingRunConsistent | src/background/background.js:143-418 | Every pending check stays consistent throughout any run. |
| UrlCheck.SilentTimeout | src/background/background.js:335-350 | A check whose only events before its timer are fetch rejections other than a `TypeError` ends invalid with "Request Timeout". |
| UrlCheck.SilentPrefix | src/background/background.js:402-417 | Fetch rejections other than a TypeError leave a silent check silent and unsettled. |
| UrlCheck.UrlCheckRun.constructor | src/background/background.js:143-156 | The closure's variables start in the `Init` state. |
| UrlCheck.UrlCheckRun.Resolve | src/background/background.js:143 | `resolve(v)` settles the promise only the first time. |
| UrlCheck.UrlCheckRun.ResolveResult | src/background/background.js:284-296 | `resolveResult` acts once, guarded by `isResolved`, which it sets. |
| UrlCheck.UrlCheckRun.Listener | src/background/background.js:260-282 | The response listener's effect is `OnResponse` of the old state. |
| UrlCheck.UrlCheckRun.OnResponseStarted | src/background/background.js:312-315 | The new state is `Step` of the old state on a started response. |
| UrlCheck.UrlCheckRun.OnCompleted | src/background/background.js:322-325 | The new state is `Step` of the old state on a completed response. |
| UrlCheck.UrlCheckRun.OnBeforeRedirect | src/background/background.js:247-258 | The new state is `Step` of the old state on a redirect. |
| UrlCheck.UrlCheckRun.OnErrorOccurred | src/background/background.js:183-245 | The new state is `Step` of the old state on a network error. |
| UrlCheck.UrlCheckRun.OnFetchResolved | src/background/background.js:395-401 | The new state is `Step` of the old state on a resolved fetch. |
| UrlCheck.UrlCheckRun.OnFetchRejected | src/background/background.js:402-417 | The new state is `Step` of the old state on a rejected fetch. |
| UrlCheck.UrlCheckRun.OnTimer | src/background/background.js:335-361 | The new state is `Step` of the old state on the timer. |
| UrlCheck.UrlCheckRun.Dispatch | src/background/background.js:312-417 | One event goes to its handler, giving `Step` of the old state. |
| UrlCheck.UrlCheckRun.DispatchAll | src/background/background.js:312-417 | A sequence of events gives `Run` of the old state. |
| Registry.CheckUrl | src/background/background.js:94-117 | The verdict passes through, an `AbortError` becomes "Request cancelled", and any other error is rethrown. |
| Registry.Response | src/background/background.js:78-89 | The reply is the verdict, or an invalid verdict whose reason is the error message. |
| Registry.SettledAsWritten | src/background/background.js:80-115 | The registry after a check settles, as the code does it: the outer controller is always removed, the inner one only when `checkUrlOnce` returned, and a rejected check keeps its inner controller. Nothing is added. |
| Registry.InnerControllerLeaks | src/background/background.js:105-115 | As written, a rejected check leaves its inner controller in `activeRequests` after it has settled. |
| Registry.Settled | src/background/background.js:105-115 | The corrected rule of the finding below: settling removes both controllers on every path and adds nothing. |
| Registry.SettleRestoresRegistry | src/background/background.js:75-109 | With both controllers dropped on every path, registering and settling a check restores the set. |
| Registry.Background.constructor | src/background/background.js:538 | `activeRequests` starts empty. |
| Registry.Background.Dispatch | src/background/background.js:75-76 | A `checkUrl` message registers two fresh controllers and nothing else. |
| Registry.Background.Settle | src/background/background.js:78-115 | The reply is `Response(o)`, and the set becomes `SettledAsWritten` of the old set, as the code does it. |
| Registry.Background.CancelScan | src/background/background.js:67-72 | Every registered controller is aborted and the set is cleared. |
| Registry.CheckLeavesRegistryEmpty | src/background/background.js:66-117 | An empty registry is empty again once the one check it dispatched has settled with a returned verdict. |
| Registry.CheckLeavesInnerOnRejection | src/background/background.js:66-117 | An empty registry that dispatches one check whose `checkUrlOnce` rejects is left holding exactly that check's inner controller. |
| UrlHelpers.DropHash | src/background/background.js:493 | One trailing `#` is removed and nothing else changes. |
| UrlHelpers.SlashHashToSlash | src/background/background.js:494 | A trailing `/#` becomes `/`; other text is unchanged. |
| UrlHelpers.DropSlashes | src/background/background.js:498 | Dropping leading slashes deletes only slashes and leaves no slash in front. |
| UrlHelpers.Collapse | src/background/background.js:498 | Collapsing never lengthens the text and keeps its first character. |
| UrlHelpers.CollapseKeepsText | src/background/background.js:498 | Collapsing deletes only slashes: every other character stays, in order. |
| UrlHelpers.RemoveSlashes | src/background/background.js:498 | A reference definition: the text with every slash deleted. `CollapseKeepsText` proves the slash rewrite changes nothing else. |
| UrlHelpers.RemoveSlashesAppend | src/background/background.js:498 | Deleting slashes distributes over concatenation. |
| UrlHelpers.CollapseLeavesNoRun | src/background/background.js:498 | After collapsing, two slashes in a row follow only a `:`. |
| UrlHelpers.CollapseClean | src/background/background.js:498 | Text without such a run is left as it is. |
| UrlHelpers.CollapseIdempotent | src/background/background.js:498 | Collapsing twice is collapsing once. |
| UrlHelpers.CleanupUrl | src/background/background.js:487-509 | An unparsable URL comes back unchanged. Otherwise, compared with the text after the hash rewrite, only slashes differ, no doubled slash is left except after a `:`, and a URL with no dot in its path, no hash and no query ends with `/`. |
| UrlHelpers.IsSpaUrl | src/background/background.js:512-536 | An unparsable URL is not a single-page app. A parsed one is iff it matches a route pattern or has a hash other than `#`. |
| UrlHelpers.ContainsMiddle | src/background/background.js:516 | Text holding `t` between two parts contains `t`. |
| UrlHelpers.HashRouteIsSpa | src/background/background.js:516-524 | Any parsable URL holding a `/#/` route counts as a single-page app. |
| Scan.ResultOf | src/scripts/index.js:593-621 | A check's result keeps its bookmark. A thrown error becomes an invalid verdict with a non-empty reason, the error's message when it has one. |
| Scan.ResultsFor | src/scripts/index.js:592-626 | One result per entry, in input order, each the result of checking that entry. |
| Scan.CountInvalid | src/scripts/index.js:655 | `totalInvalid` is zero exactly when every result is valid. |
| Scan.ReportsOf | src/scripts/index.js:531-535 | As many reports as invalid results. |
| Scan.ReportsAreInvalid | src/scripts/index.js:531-535 | Every report comes from an invalid result, with its bookmark and reason. |
| Scan.ToCheck | src/scripts/index.js:507-519 | A folder collects no more entries than it has children. |
| Scan.ToCheckEntries | src/scripts/index.js:507-519 | Each collected entry is a checkable bookmark child of the folder, under the folder's path. |
| Scan.CountCheckable | src/scripts/index.js:969-987 | `countCheckableBookmarks`. `CountCheckableIsCheckableMarks` proves it counts the checkable bookmarks of the tree. |
| Scan.CheckableCountAppend | src/scripts/index.js:969-987 | Checkable counts add up over concatenation. |
| Scan.CountCheckableIsCheckableMarks | src/scripts/index.js:969-987 | `countCheckableBookmarks` counts exactly the checkable bookmarks of the subtree. |
| Scan.CountInIsCheckableMarks | src/scripts/index.js:971-984 | The loop over the children counts the checkable bookmarks below them. |
| Scan.HasBookmarksIffMarks | src/scripts/index.js:500-562 | `scanBookmarks` answers true iff the subtree holds any bookmark, special or not. |
| Scan.HasInIffMarks | src/scripts/index.js:507-524 | The children hold a bookmark iff some bookmark lies below them. |
| Scan.Walk | src/scripts/index.js:493-576 | The one-pass summary of `scanBookmarks` on a node: the answer, the checks, the reports and the empty folders. `WalkAgrees` and `WalkReports` relate it to the tree. |
| Scan.WalkIn | src/scripts/index.js:506-522 | The same summary for the loop over a folder's children. `WalkInAgrees` and `WalkInReports` characterise it. |
| Scan.WalkAgrees | src/scripts/index.js:493-576 | The one-pass summary of a scan agrees with the separate definitions: its answer, its number of checks and its set of empty folders. |
| Scan.WalkInAgrees | src/scripts/index.js:507-524 | The same agreement for the loop over a folder's children. |
| Scan.LocatedAreMarks | src/scripts/index.js:507-524 | The bookmarks placed under their folder paths are the bookmarks of the tree, in the same order, with the same id, title and URL. |
| Scan.LocatedInAreMarks | src/scripts/index.js:507-524 | The same for the children of a folder. |
| Scan.FlaggedMember | src/scripts/index.js:525-535 | A report is among the flags of a list of entries iff it is a checkable entry of the list whose verdict is invalid, paired with that verdict's reason. |
| Scan.FlaggedAppend | src/scripts/index.js:525-535 | Flagging two lists in turn is flagging their concatenation. |
| Scan.OwnReportsStep | src/scripts/index.js:506-535 | A folder's own reports grow by the flag of its next child when that child is a bookmark, and not otherwise. |
| Scan.WalkReports | src/scripts/index.js:493-576 | The reports of a scan of a node are, as a multiset, the flags of the bookmarks at or below it under their paths. |
| Scan.WalkInReports | src/scripts/index.js:506-535 | The same for the loop over a folder's children together with the folder's own reports. |
| Scan.ScanReportsInvalidBookmarks | src/scripts/index.js:344-353 | A scan from the root reports exactly the checkable bookmarks of the tree whose verdict is invalid, each under its path and with its reason: a report is listed iff it is one of them, as many reports as such bookmarks, each once. |
| Scan.NestedEmptyFolders | src/scripts/index.js:540-556 | A titled folder whose only child is an empty titled folder is listed, and so is that child. |
| Scan.SpecialBookmarkKeepsFolder | src/scripts/index.js:508-512 | A folder holding only a `javascript:` bookmark is not empty, though nothing in it is checked. |
| Scan.Ids | src/scripts/index.js:543 | The set of listed ids is no larger than the list. |
| Scan.InIds | src/scripts/index.js:543 | An id is listed iff some entry carries it. |
| Scan.NoDupIffDistinct | src/scripts/index.js:543-554 | "No two entries share an id" is the same as "as many distinct ids as entries". |
| Scan.WavesExact | src/scripts/index.js:582 | When `w` batches of size `bs` cover `n` items and `w - 1` do not, `w` is the number of batches the loop runs, `ceil(n / bs)`. |
| Scan.WavesAtMost | src/scripts/index.js:582 | Batches that cover `n` items number at least the ceiling. |
| Scan.WavesAtLeast | src/scripts/index.js:582 | Batches of which one fewer does not cover `n` items number at most the ceiling. |
| Scan.ScanSession.constructor | src/scripts/index.js:349-353 | The lists, the counter and the poll count start empty. |
| Scan.ScanSession.ShouldCancel | src/scripts/index.js:352-355 | Each poll answers whether the intended cancellation flag is set by its turn (`cancelAt`) and changes nothing else. As written the closure reads a flag nothing sets; that case is `cancelAt == None`. |
| Scan.ScanSession.CheckWave | src/scripts/index.js:592-627 | One batch checks every entry of its slice once, in order, and adds one to the counter per entry. |
| Scan.ScanSession.CheckBookmarksInBatch | src/scripts/index.js:578-657 | A cancelled poll fails with "Scan cancelled". Otherwise every entry is checked once and in order, in `ceil(n / batchSize)` batches with a pause before each but the first. |
| Scan.ScanSession.ReportInvalid | src/scripts/index.js:531-535 | The invalid results are appended to `invalidBookmarks`, in order. |
| Scan.ScanSession.AddEmptyFolder | src/scripts/index.js:543-555 | A folder is appended only when its id is not already listed, so the ids stay distinct. |
| Scan.ScanSession.ScanBookmarks | src/scripts/index.js:493-576 | The scan fails iff a poll was cancelled. On success it answers whether the subtree holds a bookmark, lists its empty folders, adds the count of its checkable bookmarks, and appends the reports of the one-pass summary `Walk`. |
| Scan.ScanSession.FinishFolder | src/scripts/index.js:527-562 | A folder's own bookmarks are checked and reported, and the folder is listed when nothing below it is a bookmark. |
| Scan.ScanSession.ScanChildren | src/scripts/index.js:507-524 | The loop over the children answers whether any child holds a bookmark and collects the checkable bookmarks. |
| Scan.ScanSession.StartScan | src/scripts/index.js:344-353 | The corrected half of the cancellation finding: the scan fails, with "Scan cancelled", exactly when its last poll answered cancel. A scan that is not cancelled lists exactly the empty folders of the tree, each once, counts its checkable bookmarks, and reports, in some order and each once, exactly the checkable bookmarks of the tree whose verdict is invalid. |
| Scan.ScanAsWritten | src/scripts/index.js:234-355 | As written the polled flag is never set, so a scan always succeeds and reports the whole tree: its count, its empty folders and its invalid bookmarks. |
| Scan.ChildStep | src/scripts/index.js:507-524 | What visiting one child adds to each accumulation of the walk. |
| Scan.FolderStep | src/scripts/index.js:500-562 | What a folder adds on top of the loop over its children. |
| Scan.AppendKeepsIds | src/scripts/index.js:543-554 | Appending an entry with a new id keeps the ids distinct and adds that id. |
| ScanView.EscapeHtml | src/scripts/index.js:958-966 | `escapeHtml`: the empty text for a falsy input, otherwise the five replaces in order. `EscapeHtmlIsPerChar`, `EscapedHasNoMarkup` and `UnescapeEscapeHtml` characterise it. |
| ScanView.EscapeChar | src/scripts/index.js:958-966 | Every character other than the five special ones is kept as it is. |
| ScanView.ReplaceAppend | src/scripts/index.js:960-965 | A global replace distributes over concatenation. |
| ScanView.ChainAppend | src/scripts/index.js:960-965 | The chain of five replaces distributes over concatenation. |
| ScanView.ReplaceOne | src/scripts/index.js:960-965 | Replacing one character in a one-character text either substitutes it or leaves it. |
| ScanView.ChainChar | src/scripts/index.js:960-965 | On one character the chain of five replaces gives exactly that character's escape: no entity is rewritten by a later replace. |
| ScanView.EscapeHtmlIsPerChar | src/scripts/index.js:958-966 | `escapeHtml` escapes each character on its own. |
| ScanView.ChainIsPerChar | src/scripts/index.js:960-965 | The chain escapes each character on its own. |
| ScanView.EscapedHasNoMarkup | src/scripts/index.js:958-966 | Escaped text holds no `<`, `>`, `"` or `'`. |
| ScanView.EachHasNoMarkup | src/scripts/index.js:958-966 | The per-character escape produces no markup character. |
| ScanView.EscapeHtmlPlain | src/scripts/index.js:958-966 | Text without special characters comes back unchanged. |
| ScanView.EachPlain | src/scripts/index.js:958-966 | The per-character escape leaves plain text alone. |
| ScanView.UnescapeStep | src/scripts/index.js:958-966 | Decoding an escaped character followed by escaped text gives the character back first. |
| ScanView.NotPrefixAt | src/scripts/index.js:958-966 | An entity does not start at a position where the text differs from it. |
| ScanView.UnescapeEscapeHtml | src/scripts/index.js:958-966 | Rendering the escaped text shows exactly the original text. |
| ScanView.UnescapeEach | src/scripts/index.js:958-966 | Decoding inverts the per-character escape. |
| ScanView.ElapsedSeconds | src/scripts/index.js:1543 | Whole seconds since the start, rounded down. |
| ScanView.Breakdown | src/scripts/index.js:1549-1563 | Under a minute plain seconds, under an hour minutes and seconds, otherwise hours, minutes and seconds, each part in range. |
| ScanView.HoursSplit | src/scripts/index.js:1558-1562 | Hours, minutes and seconds of a duration of an hour or more add up to it. |
| ScanView.Format | src/scripts/index.js:1549-1563 | The text shown for each display form: seconds alone, `{m}m {s}` or `{h}h {m}m {s}`. `Breakdown` fixes which form a duration takes. |
| ScanView.BreakdownUnique | src/scripts/index.js:1549-1563 | A display form is determined by the seconds it stands for, so the breakdown inverts `Total`. |
| ScanView.LeadingDigits | src/scripts/index.js:49 | The longest prefix made of digits. |
| ScanView.DigitRun | src/scripts/index.js:49 | `match(/\d+/)` finds a non-empty run of digits exactly when the text holds a digit. |
| ScanView.LocalizedErrorMessage | src/scripts/index.js:46-90 | An `HTTP Error:` reason is localised by its first digit run (or throws without one). A known error is mapped. Anything else is shown as it is. |
| ScanView.DigitRunSkips | src/scripts/index.js:49 | The digit run of a non-digit prefix followed by digits is those digits. |
| ScanView.LeadingAllDigits | src/scripts/index.js:49 | A text made only of digits is its own leading digit run. |
| ScanView.HttpErrorMessage | src/scripts/index.js:48-70 | "HTTP Error: N" from the background is looked up by exactly the decimal text of N, and is shown unchanged when no case matches. |
| ScanView.NotFoundMessage | src/scripts/index.js:54 | A 404 is shown as the "page not found" message. |
| ScanView.SelectAllLabel | src/scripts/index.js:95-122 | With rows displayed, the label is "deselectAll" iff every displayed row is checked. With none displayed, nothing changes. |
| ScanView.ResultList.constructor | src/scripts/index.js:665-735 | The list holds the given rows and no selection. |
| ScanView.ResultList.ApplyFilter | src/scripts/index.js:1360-1391 | The selection is cleared, every checkbox is unchecked, and each tagged row is displayed by the filter rule. |
| ScanView.ResultList.AllSelected | src/scripts/index.js:1031-1034 | The `every` over the displayed checkboxes answers whether all displayed rows are checked, and changes nothing. |
| ScanView.ResultList.SelectAll | src/scripts/index.js:1025-1052 | Ignored while scanning. Otherwise every displayed row is checked, or unchecked when all already were, and the selection gains or loses exactly their ids. |
| ScanView.FilterShowsMatches | src/scripts/index.js:1370-1384 | After filtering, a tagged row is displayed iff the rule shows it, and no row stays checked. |
| ScanView.FilterIdempotent | src/scripts/index.js:1360-1391 | Filtering twice by the same filter is filtering once. |
| ScanView.SelectAllFlips | src/scripts/index.js:1025-1052 | A select-all click flips whether every displayed row is checked, and so flips the label. |
| Profile.HttpsDenominator | src/scripts/bookmarkProfile.js:820-821 | `(https + http) \|\| 1`: the sum, or 1 when it is zero. |
| Profile.DetailedScores | src/scripts/bookmarkProfile.js:807-837 | Each part is its floor division: bookmarks by 100, days by 30, unique domains by 50, and the organisation score (in tenths) by 20. The https score is at most 5 and is 0 without http(s) bookmarks. The total is their sum, NaN when the organisation score is. |
| Profile.Floor | src/scripts/bookmarkProfile.js:809 | `Math.floor(a / b)` is the quotient that brackets `a`. |
| Profile.HttpsScore | src/scripts/bookmarkProfile.js:820-822 | `Math.floor(ratio * 5)`, computed exactly, is at most 5. |
| Profile.Pow2 | src/scripts/bookmarkProfile.js:1852 | Powers of two are positive. |
| Profile.CollectorLevel | src/scripts/bookmarkProfile.js:1813-1829 | The level is between 1 and 10, and a NaN total gives level 1. |
| Profile.LevelMonotone | src/scripts/bookmarkProfile.js:1813-1829 | A greater total never gives a lower level. |
| Profile.LevelThresholds | src/scripts/bookmarkProfile.js:1813-1829 | The ladder agrees with the tooltip's formula `2^(l-1) + 15`: level `l >= 2` is reached exactly from that score on. |
| Profile.HttpsRatio | src/scripts/bookmarkProfile.js:1212-1217 | The share is a whole percentage between 0 and 100, rounded half up, and 0 without http(s) bookmarks. |
| Profile.RoundedShare | src/scripts/bookmarkProfile.js:1215 | The rounded percentage is bracketed by the exact share. |
| Profile.HttpsRatioBounds | src/scripts/bookmarkProfile.js:1212-1217 | Only https bookmarks give 100, and none gives 0. |
| Profile.FifthsAtMostFive | src/scripts/bookmarkProfile.js:822 | A share of at most the whole, in fifths, is at most five. |
| Profile.DropTrailingSlash | src/scripts/bookmarkProfile.js:1223 | One trailing slash is removed; nothing else changes. |
| Profile.NormalizeUrl | src/scripts/bookmarkProfile.js:1220-1227 | An unparsable URL is its own key; otherwise the key is the origin and the path without its trailing slash. |
| Profile.NormalizeIgnoresSlashAndQuery | src/scripts/bookmarkProfile.js:1220-1227 | Two URLs with the same origin whose paths differ at most by a trailing slash get the same key, whatever their query and fragment. |
| Profile.Words | src/scripts/bookmarkProfile.js:1207 | `map(([word]) => word)` keeps one word per entry, in order. |
| Profile.TopEntries | src/scripts/bookmarkProfile.js:1203-1206 | The entries sorted by count, descending, cut to `n`. `TopEntriesOrdered` and `TopEntriesDominate` characterise them. |
| Profile.TopKeywords | src/scripts/bookmarkProfile.js:1203-1209 | `getTopKeywords`: the words of `TopEntries`, joined by ", ". |
| Profile.TopEntriesOrdered | src/scripts/bookmarkProfile.js:1203-1209 | `min(n, size)` entries are kept, in order of non-increasing count. |
| Profile.TopEntriesDominate | src/scripts/bookmarkProfile.js:1203-1209 | The kept entries come from the map, and no left-out entry counts more than a kept one. |
| Profile.DatesInStep | src/scripts/bookmarkProfile.js:300-309 | The dates of the first `i + 1` children are those of the first `i` followed by child `i`'s. |
| Profile.DateRange.constructor | src/scripts/bookmarkProfile.js:297-298 | `oldest` starts at now and `newest` at 0. |
| Profile.DateRange.Take | src/scripts/bookmarkProfile.js:301-304 | A truthy date is folded in with `Math.min` and `Math.max`. |
| Profile.DateRange.TakeChild | src/scripts/bookmarkProfile.js:305-307 | One child's traversal folds its dates into the range so far. |
| Profile.DateRange.Traverse | src/scripts/bookmarkProfile.js:300-309 | Afterwards `oldest` and `newest` are the least and greatest of their old values and every truthy date in the subtree. |
| Profile.GetBookmarkDateRange | src/scripts/bookmarkProfile.js:296-312 | The result is the least and the greatest truthy date, starting from now and 0. |
| Profile.Years | src/scripts/bookmarkProfile.js:320 | One year per date, in order. |
| Profile.YearsAppend | src/scripts/bookmarkProfile.js:320 | The years of a concatenation are the concatenated years. |
| Profile.CountSplit | src/scripts/bookmarkProfile.js:318-326 | Counting two runs of dates one after the other counts their concatenation. |
| Profile.YearCounter.constructor | src/scripts/bookmarkProfile.js:316 | The counter starts empty. |
| Profile.YearCounter.CountOwn | src/scripts/bookmarkProfile.js:319-322 | A truthy date adds one to its year. |
| Profile.YearCounter.CountChild | src/scripts/bookmarkProfile.js:323-325 | One child's traversal counts its dates on top of those counted so far. |
| Profile.YearCounter.Traverse | src/scripts/bookmarkProfile.js:318-326 | One increment per truthy date of the subtree, in traversal order. |
| Profile.GetBookmarksByYear | src/scripts/bookmarkProfile.js:315-331 | The per-year counts, sorted by year. |
| Profile.ByYear | src/scripts/bookmarkProfile.js:315-331 | The per-year counts sorted by year. `ByYearSorted`, `ByYearCounts` and `ByYearCovers` characterise them. |
| Profile.ByYearSorted | src/scripts/bookmarkProfile.js:330 | The entries come in ascending year order. |
| Profile.ByYearCounts | src/scripts/bookmarkProfile.js:315-331 | Each entry holds the number of dates in its year. |
| Profile.ByYearCovers | src/scripts/bookmarkProfile.js:315-331 | Every year that holds a date has an entry. |
| Profile.OccurrencesPositive | src/scripts/bookmarkProfile.js:321 | An element of the list occurs a positive number of times. |
| Profile.GetPositiveHasKey | src/scripts/bookmarkProfile.js:321 | A key with a positive count has an entry. |
| ProfileStats.FoldFoldersAppend | src/scripts/bookmarkProfile.js:920-952 | Folding the folder fields over two visit lists in turn is folding over their concatenation. |
| ProfileStats.EmptyCount | src/scripts/bookmarkProfile.js:946-948 | The empty folders number no more than the visited folders. |
| ProfileStats.FoldFoldersCounts | src/scripts/bookmarkProfile.js:920-950 | `totalFolders` counts every counted folder, and `emptyFolders` those without a direct bookmark or subfolder. |
| ProfileStats.FoldFoldersDepth | src/scripts/bookmarkProfile.js:922 | `maxDepth` is the greatest depth among the counted folders and the starting value. |
| ProfileStats.FoldFoldersLargest | src/scripts/bookmarkProfile.js:938-944 | `largestFolder` is the first counted folder with the most direct bookmarks, unless none beats the starting record. |
| ProfileStats.FirstSpace | src/scripts/bookmarkProfile.js:1017 | The index of the first white space, or the length. |
| ProfileStats.SplitWs | src/scripts/bookmarkProfile.js:1017 | `split(/\s+/)` returns at least one piece, and no piece holds white space. |
| ProfileStats.Earlier | src/scripts/bookmarkProfile.js:973-980 | After a bookmark, the oldest record is no later than that bookmark's date or the previous record. |
| ProfileStats.Later | src/scripts/bookmarkProfile.js:981-988 | After a bookmark, the newest record is no earlier than that bookmark's date or the previous record. |
| ProfileStats.FoldLinksAppend | src/scripts/bookmarkProfile.js:955-1031 | Folding the link fields over two bookmark lists in turn is folding over their concatenation. |
| ProfileStats.NormalizedUrls | src/scripts/bookmarkProfile.js:1028 | One normalised URL per counted bookmark. |
| ProfileStats.FoldLinksUrlsAndDays | src/scripts/bookmarkProfile.js:992-993 | `urlCounts` counts normalised URLs and `bookmarksByDate` counts day keys. |
| ProfileStats.FoldLinksDomains | src/scripts/bookmarkProfile.js:1004-1006 | `domains` counts the host names of the bookmarks whose URL parses. |
| ProfileStats.HostNamesAreHosts | src/scripts/bookmarkProfile.js:1007 | The set of host names holds exactly the listed hosts. |
| ProfileStats.FoldLinksUniqueDomains | src/scripts/bookmarkProfile.js:1007 | `uniqueDomains` collects exactly the host names. |
| ProfileStats.FoldLinksProtocols | src/scripts/bookmarkProfile.js:1010-1014 | The protocol counters count the https and the http URLs. |
| ProfileStats.FoldLinksKeywords | src/scripts/bookmarkProfile.js:1017-1022 | `keywords` counts the long lower-cased title words of every bookmark whose URL parses. |
| ProfileStats.FoldLinksRecords | src/scripts/bookmarkProfile.js:973-988 | The oldest and newest records are the folds of `Earlier` and `Later`. |
| ProfileStats.EarliestIsFirstLeast | src/scripts/bookmarkProfile.js:973-980 | `oldestBookmark` is the first bookmark with the least date, and is absent exactly when there is no bookmark. |
| ProfileStats.LatestIsFirstGreatest | src/scripts/bookmarkProfile.js:981-988 | `newestBookmark` is the first bookmark with the greatest date. |
| ProfileStats.CountKeywords | src/scripts/bookmarkProfile.js:1017-1022 | The keyword counter gains one per lower-cased title word longer than three characters. |
| ProfileStats.LongWords | src/scripts/bookmarkProfile.js:1017-1021 | The words of more than three characters, in order. `LongWordStep` and `CountKeywords` use it; its length measure is admitted under "## Left out". |
| ProfileStats.LongWordStep | src/scripts/bookmarkProfile.js:1018-1021 | One more word bumps its count when it is longer than three characters. |
| ProfileStats.StatsCollector.constructor | src/scripts/bookmarkProfile.js:852-892 | The `stats` object starts with zero counts, empty maps and no records. |
| ProfileStats.StatsCollector.CountFolder | src/scripts/bookmarkProfile.js:920-950 | A counted folder is one visit of the folder fold. |
| ProfileStats.StatsCollector.CountLink | src/scripts/bookmarkProfile.js:955-1031 | A counted bookmark is one step of the link fold. |
| ProfileStats.StatsCollector.CountUrl | src/scripts/bookmarkProfile.js:1028-1030 | The normalised URL's count grows by one. |
| ProfileStats.StatsCollector.CountDate | src/scripts/bookmarkProfile.js:960-997 | The date updates the two records and its day's count. |
| ProfileStats.StatsCollector.CountParsed | src/scripts/bookmarkProfile.js:1003-1024 | A parsed URL updates host, protocol and keywords; an unparsable one changes none of them. |
| ProfileStats.StatsCollector.CountHost | src/scripts/bookmarkProfile.js:1004-1007 | The host's count grows and the host joins `uniqueDomains`. |
| ProfileStats.StatsCollector.CountProtocol | src/scripts/bookmarkProfile.js:1010-1014 | The https or the http counter grows by one, or neither. |
| ProfileStats.StatsCollector.CountTitle | src/scripts/bookmarkProfile.js:1017-1022 | The title's long words are counted. |
| ProfileStats.StatsCollector.Traverse | src/scripts/bookmarkProfile.js:917-1033 | The folder fields become the fold over the counted folders, and the link fields the fold over the counted bookmarks. |
| ProfileStats.CountValidBookmarks | src/scripts/bookmarkProfile.js:895-913 | The result is the number of checkable bookmarks in the tree, as the scan page counts them. |
| ProfileStats.CeilDays | src/scripts/bookmarkProfile.js:1043 | The smallest whole number of days covering the difference. |
| ProfileStats.PeakDay | src/scripts/bookmarkProfile.js:1046-1056 | The busiest day is the first entry with the greatest count, or none when no count is positive. |
| ProfileStats.DuplicateKeys | src/scripts/bookmarkProfile.js:1078-1083 | Only keys of the map are reported as duplicates. |
| ProfileStats.CountDuplicates | src/scripts/bookmarkProfile.js:1078-1085 | The loop counts exactly the keys seen more than once. |
| ProfileStats.DuplicateKeysStep | src/scripts/bookmarkProfile.js:1079-1083 | One more entry adds one duplicate key exactly when its count exceeds one. |
| ProfileStats.DuplicateKeysIffCount | src/scripts/bookmarkProfile.js:1079-1083 | With distinct keys, a key is a duplicate iff its count exceeds one. |
| ProfileStats.OccursWhenCounted | src/scripts/bookmarkProfile.js:1029-1030 | A key with a positive count occurs in the counted list. |
| ProfileStats.DuplicatesAreRepeatedUrls | src/scripts/bookmarkProfile.js:1028-1085 | The duplicate count is the number of normalised URLs that occur more than once. |
| ProfileStats.CalculateBookmarkStats | src/scripts/bookmarkProfile.js:851-1089 | It gives the checkable count, the folder and link folds from the root at depth 0, the span in days rounded up, the busiest day, and the number of repeated normalised URLs. |
| ProfileStats.CountRepeatedUrls | src/scripts/bookmarkProfile.js:1078-1085 | The number of normalised URLs seen more than once. |
| ProfileStats.EmptyRulesDiffer | src/scripts/bookmarkProfile.js:946-948 | The two pages disagree on empty folders: a folder whose only child is an empty folder is empty for the scan page but not for the profile page. |
| Tags.TagConfigs | src/scripts/bookmarkProfile.js:1306-1683 | Seven tags in declaration order, with their ids and thresholds. |
| Tags.TagConfigsWellFormed | src/scripts/bookmarkProfile.js:1306-1683 | The tags have distinct keys and ids, and every threshold is positive and at most 0.4, so one keyword match alone reaches it. |
| Tags.DistinctBySignature | src/scripts/bookmarkProfile.js:1306-1683 | Names that differ in first letter or length are different. |
| Tags.Score | src/scripts/bookmarkProfile.js:1697-1707 | The score is positive iff the host contains one of the tag's domains or the title one of its keywords, and it never exceeds 0.6 + 0.4. |
| Tags.CategorizeBookmark | src/scripts/bookmarkProfile.js:1686-1720 | Null without a URL or for an unparsable one; a non-null result is never an empty list. |
| Tags.Categories | src/scripts/bookmarkProfile.js:1696-1713 | The categories object of one bookmark. `CategoriesSound` and `CategoriesMember` characterise it. |
| Tags.CategoriesSound | src/scripts/bookmarkProfile.js:1696-1713 | Every category is a tag's key with that tag's score, reaching its threshold. |
| Tags.CategoriesMember | src/scripts/bookmarkProfile.js:1696-1713 | With distinct keys, a tag is a category iff its score reaches its threshold. |
| Tags.CategorizeBookmarkTags | src/scripts/bookmarkProfile.js:1686-1720 | For a parsable URL, a tag is included iff the host contains one of its domains or the title one of its keywords. The result is null iff no tag matches. |
| Tags.CategorizeDomains | src/scripts/bookmarkProfile.js:1723-1744 | The method's result is the fold of both loops over the domain counts. |
| Tags.TagPass | src/scripts/bookmarkProfile.js:1732-1741 | One domain's pass over the tag configs. `TagPassEntry` characterises it. |
| Tags.DomainPass | src/scripts/bookmarkProfile.js:1732-1741 | The pass over every domain. `DomainPassEntry` and `DomainPassOther` characterise it. |
| Tags.TagPassEntry | src/scripts/bookmarkProfile.js:1736-1740 | For one domain, the entry of id `k` grows iff a tag with id `k` matches the domain; every other entry stays. |
| Tags.DomainPassEntry | src/scripts/bookmarkProfile.js:1732-1741 | Each initialised id ends with the total count of the domains its list matches; any other tag's id is absent or NaN. |
| Tags.UniqueIdHit | src/scripts/bookmarkProfile.js:1736-1740 | With distinct ids, the only tag carrying a tag's id is that tag. |
| Tags.AnyHitStep | src/scripts/bookmarkProfile.js:1732-1741 | Some domain of a list hits a tag iff an earlier one or the last one does. |
| Tags.DomainPassOther | src/scripts/bookmarkProfile.js:1724-1743 | A key that is no tag's id keeps its initial entry. |
| Tags.CategorizeDomainsTotals | src/scripts/bookmarkProfile.js:1723-1744 | Tech, learning, tools and social hold their totals. News, shopping and entertainment are absent when no domain matched and NaN when one did. No other key is ever set. |
| Duplicates.Entries | src/scripts/duplicates.js:109-123 | The entries `traverseBookmarks` pushes for a node. `EntriesArePreOrder` and `EntriesPaths` characterise them. |
| Duplicates.Traverse | src/scripts/duplicates.js:109-123 | `traverseBookmarks` appends exactly the entries of the subtree to the list. |
| Duplicates.EntriesInStep | src/scripts/duplicates.js:121 | The entries of the first `i + 1` children are those of the first `i` followed by child `i`'s. |
| Duplicates.WithUrlAppend | src/scripts/duplicates.js:110 | Selecting the nodes with a URL distributes over concatenation. |
| Duplicates.FieldsAppend | src/scripts/duplicates.js:111-117 | The copied fields of a concatenation are the concatenated fields. |
| Duplicates.NodeFieldsAppend | src/scripts/duplicates.js:111-117 | The same for nodes. |
| Duplicates.EntriesArePreOrder | src/scripts/duplicates.js:109-123 | The flattening emits exactly the nodes with a URL, each once, in pre-order, with their own fields. |
| Duplicates.EntriesInArePreOrder | src/scripts/duplicates.js:121 | The same for a folder's children. |
| Duplicates.EntriesPaths | src/scripts/duplicates.js:116-121 | An entry's path extends the starting path by folder titles only; an untitled folder adds nothing. |
| Duplicates.EntriesInPaths | src/scripts/duplicates.js:120-121 | The same for a folder's children. |
| Duplicates.AddEntry | src/scripts/duplicates.js:130-134 | The map gains an entry exactly when the key is new. |
| Duplicates.SameUrl | src/scripts/duplicates.js:129 | The bookmarks with a given trimmed URL are never more than the input. |
| Duplicates.Values | src/scripts/duplicates.js:137 | One group per key, in key order. |
| Duplicates.GroupMap | src/scripts/duplicates.js:125-135 | The URL map after the `forEach`. `LookupGroupMap`, `GroupMapDistinct` and `GroupMapValue` characterise it. |
| Duplicates.Duplicates | src/scripts/duplicates.js:125-140 | The long groups of the map, stably sorted by size, descending. `DuplicateGroupsShareUrl`, `DuplicatesOrdered`, `DuplicateMembership` and `DuplicatesUniqueIds` characterise them. |
| Duplicates.FindDuplicates | src/scripts/duplicates.js:125-139 | The result is the long groups of the URL map, sorted by size, largest first. |
| Duplicates.LookupAdd | src/scripts/duplicates.js:130-134 | Adding an entry extends its own key's group and leaves every other group alone. |
| Duplicates.LookupGroupMap | src/scripts/duplicates.js:128-135 | Each URL's group holds exactly the bookmarks with that trimmed URL, in traversal order. |
| Duplicates.KeyOfAdd | src/scripts/duplicates.js:130-134 | Every key after an add is the added key or an old key. |
| Duplicates.AddDistinct | src/scripts/duplicates.js:130-134 | Adding keeps the keys distinct. |
| Duplicates.GroupMapDistinct | src/scripts/duplicates.js:128-135 | The URL map has distinct keys. |
| Duplicates.EntryIsLookup | src/scripts/duplicates.js:130-134 | An entry's group is what `get` answers for its key. |
| Duplicates.GroupMapValue | src/scripts/duplicates.js:137 | Each value of the map is the group of its key. |
| Duplicates.SameUrlMember | src/scripts/duplicates.js:129 | A bookmark is in the group of a URL iff its trimmed URL is that URL. |
| Duplicates.LookupHasKey | src/scripts/duplicates.js:130-134 | A key with a non-empty group has an entry. |
| Duplicates.GroupMapHasKey | src/scripts/duplicates.js:128-135 | A URL that occurs has a key in the map. |
| Duplicates.LongGroupsMember | src/scripts/duplicates.js:138 | A group is kept iff it is a value longer than one. |
| Duplicates.ValuesMember | src/scripts/duplicates.js:137 | A value of the map is the group of some key. |
| Duplicates.DuplicateGroupsShareUrl | src/scripts/duplicates.js:125-139 | Every group has at least two bookmarks and is exactly the bookmarks sharing its first member's trimmed URL, in traversal order. |
| Duplicates.DuplicatesOrdered | src/scripts/duplicates.js:137-139 | Groups come in order of non-increasing size and are a permutation of the map's long groups. |
| Duplicates.DuplicateMembership | src/scripts/duplicates.js:125-139 | A bookmark is in some group iff its trimmed URL occurs at least twice. |
| Duplicates.Stats | src/scripts/duplicates.js:143-152 | The two counters are the number of groups and the total size of the groups. |
| Duplicates.SumWhereAdd | src/scripts/duplicates.js:130-134 | Adding an entry under a key that satisfies `p` adds one to the sum. |
| Duplicates.SumWhereGroupMap | src/scripts/duplicates.js:128-135 | The total size of the groups whose URL satisfies `p` is the number of bookmarks with such a URL. |
| Duplicates.SumLongGroupsLast | src/scripts/duplicates.js:138 | The total size of the long groups grows by the last entry's group size when that group has more than one bookmark. |
| Duplicates.SumLongGroups | src/scripts/duplicates.js:138 | Over the URL map, the long groups are those whose URL occurs at least twice. |
| Duplicates.SumSizesInsert | src/scripts/duplicates.js:146-149 | Inserting a group into a list adds its size to the total. |
| Duplicates.SumSizesSort | src/scripts/duplicates.js:146-149 | Sorting the groups keeps the total size. |
| Duplicates.DuplicateBookmarkCount | src/scripts/duplicates.js:146-149 | The duplicate-bookmark counter is the number of bookmarks whose trimmed URL occurs at least twice. |
| Duplicates.Ids | src/scripts/duplicates.js:265 | One id per entry, in order. |
| Duplicates.KeepStep | src/scripts/duplicates.js:261-276 | One group's step keeps the set of checkbox ids. |
| Duplicates.Marked | src/scripts/duplicates.js:268-276 | Marking keeps the set of checkbox ids. |
| Duplicates.MarkedAt | src/scripts/duplicates.js:268-276 | The same rule, read at one id. |
| Duplicates.KeepAll | src/scripts/duplicates.js:261-277 | The `for` loop over the groups keeps the set of checkbox ids. |
| Duplicates.CheckedCount | src/scripts/duplicates.js:222 | The checked count is at most the group size. |
| Duplicates.CheckedCountBounds | src/scripts/duplicates.js:222-225 | The count equals the size iff every item is checked, and is positive iff some item is. |
| Duplicates.CheckedCountAll | src/scripts/duplicates.js:224 | All boxes are counted exactly when every item is checked. |
| Duplicates.CheckedCountAny | src/scripts/duplicates.js:225 | Some box is counted exactly when some item is checked. |
| Duplicates.GroupBoxOf | src/scripts/duplicates.js:220-227 | The group checkbox the item listener computes. `GroupBoxRule` characterises it. |
| Duplicates.GroupBoxRule | src/scripts/duplicates.js:219-227 | The group box is checked iff all items are, and indeterminate iff some but not all are. |
| Duplicates.DuplicateManager.constructor | src/scripts/duplicates.js:5-13 | No groups are rendered yet. |
| Duplicates.DuplicateManager.ScanDuplicates | src/scripts/duplicates.js:67-80 | The groups become `findDuplicates` of the flattened tree, rendered with every box unchecked. |
| Duplicates.DuplicateManager.Render | src/scripts/duplicates.js:159-166 | One unchecked group box per group and one unchecked item box per bookmark of a group. |
| Duplicates.DuplicateManager.KeepNewest | src/scripts/duplicates.js:259-288 | The checkboxes become `KeepAll` with the newest-first key. |
| Duplicates.DuplicateManager.KeepOldest | src/scripts/duplicates.js:313-342 | The checkboxes become `KeepAll` with the oldest-first key. |
| Duplicates.DuplicateManager.KeepBy | src/scripts/duplicates.js:261-277 | The shared loop of both buttons: the checkboxes become `KeepAll` of the old ones. |
| Duplicates.DuplicateManager.CancelSelection | src/scripts/duplicates.js:353-373 | Every item box and group box is unchecked, and none is indeterminate. |
| Duplicates.DuplicateManager.ItemChanged | src/scripts/duplicates.js:218-227 | The group box follows `GroupBoxRule` for its items. |
| Duplicates.DuplicateManager.GroupChanged | src/scripts/duplicates.js:193-198 | Every item of the group takes the group box's state, and the clicked box is left in that state and not indeterminate. Other groups and their boxes are untouched. |
| Duplicates.DuplicatesNonEmpty | src/scripts/duplicates.js:138 | Every group returned has a first element. |
| Duplicates.Unchecked | src/scripts/duplicates.js:234-256 | The rendered item boxes: one per bookmark of a group, all unchecked. |
| Duplicates.AllIdsMember | src/scripts/duplicates.js:159-166 | An id is rendered iff it belongs to some group. |
| Duplicates.SortedFirst | src/scripts/duplicates.js:262-263 | `[...group].sort(...)[0]` is the first entry of the group with the least key. |
| Duplicates.WithKeyHead | src/scripts/duplicates.js:262 | The first element of a non-empty sequence is also the first of the elements sharing its key. |
| Duplicates.WithKeyFirst | src/scripts/duplicates.js:262 | The first element with a key is the first element of `s` with that key. |
| Duplicates.WithKeyNone | src/scripts/duplicates.js:262 | When no element has key `k`, no position holds key `k`. |
| Duplicates.PermutedIdsIn | src/scripts/duplicates.js:262-265 | Every entry of a permutation of the group carries an id of the group. |
| Duplicates.MarkedFirst | src/scripts/duplicates.js:272-273 | The entry sorted first is left unchecked. |
| Duplicates.MarkedOthers | src/scripts/duplicates.js:270-271 | Every other member of the group is checked. |
| Duplicates.MarkedOutside | src/scripts/duplicates.js:268-276 | A checkbox outside the group keeps its state. |
| Duplicates.KeepStepEffect | src/scripts/duplicates.js:261-276 | One group's step unchecks the first entry of its sort, checks the others and keeps every other checkbox. |
| Duplicates.UniqueIdsPrefix | src/scripts/duplicates.js:261 | A prefix of groups with unique ids has unique ids. |
| Duplicates.KeepAllUntouched | src/scripts/duplicates.js:261-277 | A checkbox of a bookmark in no group keeps its state through "keep newest" or "keep oldest". |
| Duplicates.KeepAllSettled | src/scripts/duplicates.js:261-277 | Afterwards a bookmark of a group is unchecked iff the group's stable sort puts it first; every other member is checked. |
| Duplicates.ValuesAt | src/scripts/duplicates.js:138 | The map's values, in key order. |
| Duplicates.GroupMapValuesDiffer | src/scripts/duplicates.js:129-135 | Two keys of the URL map never hold the same non-empty group. |
| Duplicates.LongGroupsNoRepeats | src/scripts/duplicates.js:138-139 | Keeping the groups of two or more keeps a list without repeated groups free of repeats. |
| Duplicates.OnceInNoRepeats | src/scripts/duplicates.js:138-140 | A list without repeats holds each group at most once. |
| Duplicates.PermutedNoRepeats | src/scripts/duplicates.js:140 | Sorting a list without repeated groups leaves it without repeats. |
| Duplicates.DuplicatesNoRepeats | src/scripts/duplicates.js:125-140 | `findDuplicates` returns no group twice. |
| Duplicates.SameUrlDistinct | src/scripts/duplicates.js:129-135 | The bookmarks sharing a URL have distinct ids when all bookmarks do. |
| Duplicates.SameIdSameEntry | src/scripts/duplicates.js:129-135 | In a list with distinct ids, two members with the same id are the same entry. |
| Duplicates.MembersDiffer | src/scripts/duplicates.js:125-140 | In distinct groups of same-URL bookmarks, or at two places of one group, the ids differ. |
| Duplicates.DuplicatesUniqueIds | src/scripts/duplicates.js:125-140 | When the flattened bookmarks have distinct ids, no id occurs twice across the groups: each bookmark is in at most one group, once. |
| Duplicates.OneGroupPerBookmark | src/scripts/duplicates.js:125-140 | A bookmark is in at most one group; with `DuplicateMembership`, a bookmark whose trimmed URL occurs twice is in exactly one. |
| Duplicates.KeepAfterScan | src/scripts/duplicates.js:261-277 | "Keep newest" or "keep oldest" over the groups of a scan with distinct ids leaves unchecked exactly the member each group's stable sort puts first, and checks every other member. |
| Duplicates.GroupIdsDistinct | src/scripts/duplicates.js:261 | Within one group the ids are distinct. |
| Duplicates.IdNotInOtherGroup | src/scripts/duplicates.js:261 | An id of one group is no id of another. |
| Duplicates.SortedIdsDistinct | src/scripts/duplicates.js:262 | Distinct ids stay distinct in any permutation of the group. |
| Duplicates.SortedDistinct | src/scripts/duplicates.js:262 | In any permutation of a group with distinct ids, two positions hold different entries. |
| Duplicates.OnceInDistinct | src/scripts/duplicates.js:262 | In a group with distinct ids, an entry occurs at most once. |
| Settings.FloorSeconds | src/scripts/settings.js:71 | `Math.floor(ms / 1000)` is the quotient that brackets `ms`. |
| Settings.Saved | src/scripts/settings.js:52-56 | Saving stores `seconds * 1000` under "timeout" and keeps every other slot. |
| Settings.LoadedSeconds | src/scripts/settings.js:69-72 | The stored milliseconds as seconds; the default 15 when the slot is missing or 0. |
| Settings.LoadResult | src/scripts/settings.js:64-88 | Always a whole number of seconds in milliseconds; 15000 when the read fails. |
| Settings.CurrentTimeout | src/scripts/settings.js:99-107 | The stored milliseconds, or 15000 when they are missing, 0 or unreadable. |
| Settings.Marked | src/scripts/settings.js:121-127 | Marking stores a true "hasScanned" and keeps every other slot. |
| Settings.FirstScan | src/scripts/settings.js:110-118 | A first scan iff no truthy flag is stored; a failed read answers false. |
| Settings.WritesWellTyped | src/scripts/settings.js:52-127 | Both writes keep the store in the shapes the extension uses. |
| Settings.SaveLoadRoundTrip | src/scripts/settings.js:52-88 | Saving a non-zero number of seconds and loading gives it back, whatever it is, unclamped. Saving 0 loads back as the default. |
| Settings.CurrentTimeoutIsLoadResult | src/scripts/settings.js:64-107 | On a store the extension wrote, `getCurrentTimeout` and `loadSettings` agree. |
| Settings.SavedTimeoutReachesBackground | src/scripts/settings.js:52-107 | After a save the background's timeout is the saved seconds in milliseconds, or the default for 0. |
| Settings.MarkedIsNotFirst | src/scripts/settings.js:110-127 | Once marked, no later scan is a first scan, and saving the timeout does not change that. |
| Settings.MarkKeepsTimeout | src/scripts/settings.js:99-127 | Marking leaves the timeout alone. |
| Settings.SettingsStore.constructor | src/scripts/settings.js:11-16 | The page before `initSettings` runs: the store holds the given items and the slider its markup value. |
| Settings.SettingsStore.InitSettings | src/scripts/settings.js:11-16 | `initSettings` moves the slider to the stored seconds, or leaves it when the read fails. |
| Settings.SettingsStore.SaveSettings | src/scripts/settings.js:52-61 | The store becomes `Saved` of the old one, or stays as it was when the write fails. |
| Settings.SettingsStore.LoadSettings | src/scripts/settings.js:64-88 | It returns `LoadResult` and moves the slider to the loaded seconds. |
| Settings.SettingsStore.GetCurrentTimeout | src/scripts/settings.js:99-107 | It returns `CurrentTimeout` and changes nothing. |
| Settings.SettingsStore.IsFirstScan | src/scripts/settings.js:110-118 | It returns `FirstScan` and changes nothing. |
| Settings.SettingsStore.MarkScanned | src/scripts/settings.js:121-127 | The store becomes `Marked` of the old one, or stays as it was when the write fails. |
| Settings.SettingsStore.MoveSlider | src/scripts/settings.js:32-34 | The slider takes a value in its range and the store is untouched. |
| Settings.SettingsStore.Confirm | src/scripts/settings.js:37-41 | The slider's seconds are saved. |
| Settings.SettingsStore.Cancel | src/scripts/settings.js:44-48 | The slider returns to the saved seconds; the store is untouched. |
| Settings.ConfirmUnchanged | src/scripts/settings.js:11-40 | Opening the page and confirming without moving the slider stores the loaded seconds, so a stored timeout is kept unchanged. |
| Preview.PlaceLeft | src/scripts/preview.js:139-150 | Right of the link when the window fits there, else left of it, never closer than the margin to the left edge. |
| Preview.PlaceTop | src/scripts/preview.js:140-161 | Level with the link, moved up when it would cross the bottom margin, never above the top margin. |
| Preview.PlacementInsideViewport | src/scripts/preview.js:132-166 | On a viewport with room for the window and its margins, the window lies wholly inside it. |
| Preview.LeftPlacementClearsLink | src/scripts/preview.js:143-150 | A window placed left of a link does not cover it, unless the clamp pushed it. |
| Preview.ShowStep | src/scripts/preview.js:168-179 | Nothing happens when the page is already current; otherwise the page loads into the displayed container and the hide timer is cancelled. |
| Preview.HideStep | src/scripts/preview.js:181-196 | The container is hidden, the frame blanked, the page forgotten and both timers cancelled, whatever the state. |
| Preview.Hover | src/scripts/preview.js:82-95 | Any pending preview is replaced by one for the URL, and the window moves beside the link. |
| Preview.Leave | src/scripts/preview.js:97-114 | The pending preview is cancelled and the hide timer (re)started. |
| Preview.PreviewTimerFired | src/scripts/preview.js:89-91 | The pending page is shown. |
| Preview.HideTimerFired | src/scripts/preview.js:108-113 | The preview is hidden unless the pointer is over it. |
| Preview.ShowIdempotent | src/scripts/preview.js:168-169 | Showing the same page twice is showing it once. |
| Preview.HideIdempotent | src/scripts/preview.js:181-196 | Hiding twice is hiding once, and hiding forgets the page, so showing it again reloads it. |
| Preview.StepsKeepConsistent | src/scripts/preview.js:82-196 | Every handler keeps the container displayed exactly while a page is current, with the frame on that page. |
| Preview.HoverThenTimerShows | src/scripts/preview.js:82-95 | A hover followed by its timer shows the hovered page, placed inside a roomy viewport. |
| Preview.BookmarkPreview.constructor | src/scripts/preview.js:2-16 | No page is current, both timers are idle and the container is hidden. |
| Preview.BookmarkPreview.UpdatePosition | src/scripts/preview.js:132-166 | The window's corner becomes `PlaceLeft` and `PlaceTop` of the link's box. |
| Preview.BookmarkPreview.Show | src/scripts/preview.js:168-179 | The new state is `ShowStep` of the old one. |
| Preview.BookmarkPreview.Hide | src/scripts/preview.js:181-196 | The new state is `HideStep` of the old one. |
| Preview.BookmarkPreview.HandleUrlHover | src/scripts/preview.js:82-95 | The new state is `Hover` of the old one. |
| Preview.BookmarkPreview.HandleUrlLeave | src/scripts/preview.js:97-114 | The new state is `Leave` of the old one. |
| Preview.BookmarkPreview.OnPreviewTimer | src/scripts/preview.js:89-91 | The new state is `PreviewTimerFired` of the old one. |
| Preview.BookmarkPreview.OnHideTimer | src/scripts/preview.js:108-113 | The new state is `HideTimerFired` of the old one. |
| Preview.BookmarkPreview.UrlMouseOver | src/scripts/preview.js:54-63 | The hide timer is cancelled, then the hover is handled. |
| Preview.BookmarkPreview.MouseEnter | src/scripts/preview.js:41-46 | The pointer is over the preview and the hide timer is cancelled. |
| Preview.BookmarkPreview.MouseLeave | src/scripts/preview.js:48-51 | The pointer has left the preview and the leave handler runs. |
| Preview.BookmarkPreview.FrameLoaded | src/scripts/preview.js:73-75 | The title becomes the current page's URL, or empty text when no page is current. |
| Preview.BookmarkPreview.FrameFailed | src/scripts/preview.js:77-79 | The title reads "Failed to load preview". |

## Left out

- Browser I/O is not modelled: the bookmark, storage, `webRequest`, `fetch`, `runtime` messaging and `i18n` APIs. Their answers are parameters: a check outcome per bookmark, an event sequence per check, a storage failure flag, `I18n` and `UrlParser` functions.
- DOM rendering is not modelled: templates, class names, the progress ring, toast, the cat animation, the confetti (`confetti.js`), the profile charts, the share feature and the nickname dialog. Only the state they read or write is kept: checkboxes, display flags, lists and counters.
- Floating point is replaced by exact arithmetic. Tag scores are in thousandths. The https ratio is rounded from an exact fraction, so it can differ from the browser's: with 29 https and 171 http bookmarks the browser rounds `(29/200)*100 = 14.499999999999998` to 14, and the model rounds 14.5 to 15. `toFixed(1)` values (`avgBookmarksPerFolder`, `organizationScore`, the duplicate percentage) are left out, except that `organizationScore` enters the collector level as whole tenths. Preview positions are integer pixels.
- Profile.DetailedScores: `organizationScore` is an input in tenths, not computed from `organizationFactors`, because that formula is floating point and can divide by zero.
- The clock is one `now` parameter per run; `Date.now()` is not re-read during a traversal.
- The year and the ISO day key of a timestamp are parameters (`yearOf`, `dayKey`); calendar arithmetic is not modelled.
- Strings.Lower: lower-cases ASCII letters only; `toLowerCase` on other scripts is not modelled.
- Strings.Trim: `IsSpace` covers space, tab, line feed, carriage return, vertical tab and form feed, not every Unicode white-space character.
- URL parsing is a parameter. The URL serializer's normalisations (default ports, percent-encoding, IDNA) are not modelled, and `FlipScheme` only rewrites the scheme.
- The retry path of `checkBookmarksInBatch` (`retryBookmarks`, the 3-second wait and the `retryResult` listener) is dead code, because nothing ever adds to the map. It is not modelled. The 1-second pause between batches is counted, not timed.
- Scan.ScanSession.StartScan: cancellation is a poll answer fixed in advance (`cancelAt`), modelling the cancellation the code evidently intends. As written the polled flag never turns true (see "## Findings"), so only `cancelAt == None` happens in the page. The user's click and `cancelScan` racing the scan are not modelled beyond that.
- ProfileStats.LongWords: `word.length > 3` counts UTF-16 code units in the browser. The model counts characters, so a word of two characters outside the Basic Multilingual Plane (two emoji, say) has length 2 here and 4 there. Strings are sequences of characters and the UTF-16 encoding is not modelled.
- A bookmark with a missing `title` makes `node.title.toLowerCase()` throw inside the keyword `try`. The model takes titles as strings and does not capture that early exit.
- The check timeout: `resolveResult` calls `clearTimeout(timeout)` with the duration, not the timer id, so the timer always fires later. The model lets it fire and relies on its `isResolved` guard, as the code does.
- `listener` logging, `requestLog` and the debug output have no effect on results and are left out.
- ScanView.LocalizedErrorMessage: `errorMap[error]` on an inherited property name (such as `constructor`) is not modelled; only the eight listed keys are looked up.
- The scan page's `disabled` flags on checkboxes and the display of the batch buttons are not modelled.
- Duplicates.DuplicateManager.Render: the group checkbox is created only when `new URL(group[0].url)` succeeds. The model renders one for every group.
- The duplicate page's button displays are not modelled: "keep newest" and "keep oldest" hide one of the pair and show "cancel selection" and "delete selected" (duplicates.js:281-284, 335-338), and "cancel selection" restores them (duplicates.js:365-369).
- Deleting bookmarks (`deleteSelectedBookmarks`, `removeBookmarks`) and `updateDeleteButtonVisibility` call the browser and the DOM. They are not modelled.
- Tags.CategorizeDomains: the tag lists' contents are inputs. Only the ids, thresholds and order of `TAG_CONFIGS` are fixed, not its roughly 400 domain and keyword strings.
- Settings: `parseInt` of the slider value yielding NaN, and missing dialog elements, are not modelled. The slider always holds a whole number.
- Preview.BookmarkPreview: the `isMouseOverPreview(e)` method (`preview.js`:116-130) is shadowed by the boolean field of the same name and never called, so it is not modelled. `init()`'s missing-element path, the close button and the document-level click test on `e.target` are not modelled.
- Concurrency is reduced to event sequences: the interleaving of concurrent checks in one batch is not modelled, and each check is run on its own.

## Findings

| source | as written | input that shows it | evidently intended | confidence | as-written member | corrected member |
|---|---|---|---|---|---|---|
| src/background/background.js:105-115 | `checkUrl` adds an inner abort controller to `activeRequests` but deletes it only after `checkUrlOnce` returns. Its `catch` rethrows without deleting it. | A check whose `checkUrlOnce` rejects, for example because `webRequest.onResponseStarted.addListener` refuses a URL that is not a valid match pattern: the inner controller stays in `activeRequests` until the next `cancelScan`. | Both controllers are removed once the check settles, on every path. | not executed | Registry.InnerControllerLeaks | Registry.SettleRestoresRegistry |
| src/scripts/index.js:234-355 | The `shouldCancel` closure reads the click handler's own `scanCancelled` (line 234), which nothing assigns; `cancelScan` and `resetScanData` set the module-level one (line 6). | Clicking "cancel" during a scan: every poll still answers false and the scan runs to its end. | A poll answers true once cancel is clicked, and the scan stops with "Scan cancelled". | not executed | Scan.ScanAsWritten | Scan.ScanSession.StartScan |
