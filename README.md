# Grok Imagine Favorites Manager — a verified model of the scanning core

This project models the core of a browser extension that bulk-downloads and bulk-unfavorites the items on the favorites page of the Grok Imagine gallery. The model covers:

- **Post identifiers** (`js/utils.js`). `extractPostId` finds the UUID after a path marker, and otherwise the last UUID of a global search, lower-cased. `extractPostDataFromElement` picks a card's first post link, and otherwise falls back to the image source.
- **Classification** (`js/classifier.js`). A card counts as a static image only when it has an image and no video, no play icon and no `m:ss` duration text.
- **The media scanner** (`js/scanner.js`). `scan` runs three identification rounds over the visible cards. Static images go straight into a URL-keyed map under a synthesised URL. Every other post is queued for deep analysis. The analysis replies are merged into the map without overwriting, and the result is filtered by mode. `unsaveAll` is the unsave sweep: it clicks, or falls back to the API, and stops once a round did nothing and the height has settled.
- **The service worker's deep analysis** (`background.js`):
  - its copy of the post-id extractor;
  - the sniffer relay's URL filter;
  - the download-button and tab searches;
  - the network-idle wait;
  - the accumulation of the video-step and image-step URLs, and the final `{url, id, type}` mapping.
- **The older content script** (`content.js`):
  - the video-id, post-id, base-name and URL-pattern helpers;
  - the `determineFilename` chooser;
  - the `-HD` filename rewrite;
  - the choice of the tallest scroll container;
  - the quiescence loop of `scrollAndCollectPostIds`;
  - the success/fail loop of the three unfavorite handlers;
  - the card walk of `collectMediaFromVisibleCards`.

The page, the cancel button and the network are inputs:

- `rounds[k]` is what the page shows in round `k`. Past the last given round the page shows no cards at all, a card count of 0, and the unsave sweep reads the last given height. This padding is what makes the model's scroll loops end (see "## Left out").
- `cancelled(p)` is the answer to the `p`-th `isCancelled()` poll.
- `analyze(id, url)` is the reply to `Api.requestAnalysis`.
- `unliked(i)` and `hdExists(url)` are the outcomes of `unlikePost` and `checkVideoExists`.
- Clock readings are parameters, and so is `Date.now()`.

The model follows the code's own regular-expression semantics:

- A non-global `match` is the leftmost match.
- A `/g` match is the chain of non-overlapping matches, each search resuming 36 characters after the last match.
- The `i` flag admits upper-case hex.

A JavaScript `Map` or insertion-ordered `Set` is a `seq` of its entries, in insertion order.

Modules, one file each:

| module | file |
|---|---|
| `Wrappers` | `wrappers.dfy` |
| `Text` | `text.dfy` |
| `Uuid` | `uuid.dfy` |
| `Quiescence` | `quiescence.dfy` |
| `Polling` | `polling.dfy` |
| `Dom` | `dom.dfy` |
| `Utils` | `utils.dfy` |
| `ItemClassifier` | `classifier.dfy` |
| `MediaScanner` | `scanner.dfy` |
| `Background` | `background.dfy` |
| `ContentNames` | `content_names.dfy` |
| `ContentScroll` | `content_scroll.dfy` |
| `StaticUrls` | `static_urls.dfy` |

Two behaviours of the code that its names do not suggest:

- **Phase-2 cancel.** A cancel during phase 2 of `scan` breaks out of the loop and returns the partial, filtered map (js/scanner.js:70). It does not raise the cancellation condition.
- **`unsaveAll` count.** `unsaveAll` returns the number of clicks plus the number of API calls (js/scanner.js:140-141, 154-155). This is not the number of distinct posts: a click is counted every time a card shows its unsave button.

## Model

| member | source | states |
|---|---|---|
| Uuid.FirstUuid | content.js:369 | the leftmost position where a UUID-shaped substring starts; nothing when none starts anywhere from there on |
| Uuid.GlobalMatchesShape | js/utils.js:16 | every position of the global search is a match, and successive matches are at least 36 characters apart |
| Uuid.GlobalMatchesLast | js/utils.js:16-18 | no UUID starts after the end of the last match of the global search |
| Uuid.LastUuid | js/utils.js:16-18 | `allMatches[allMatches.length - 1]`: nothing exactly when no UUID occurs; otherwise a match after whose end no UUID starts |
| Uuid.LowerUuidFrom | js/utils.js:13 | lower-casing a matched UUID gives a lower-case UUID |
| Uuid.LowerUuidIsUuid | js/utils.js:18 | a lower-case UUID is a UUID and lower-casing leaves it unchanged |
| Quiescence.Unchanged | content.js:537-544 | the unchanged counter after a log of readings is never more than the number of readings |
| Quiescence.UnchangedStep | content.js:537-544 | one reading adds one to the counter when it equals the recorded value and resets it to 0 otherwise |
| Quiescence.UnchangedIffStable | js/scanner.js:165-169 | the counter is at least `m` exactly when each of the last `m` readings equals the one recorded before it |
| Polling.FirstCancel | content.js:1106-1113 | the first item whose poll says cancel, or the count: every earlier poll said no, and the one at the result said yes |
| Utils.MarkedUuidAt | js/utils.js:12 | where the pattern's capture starts: right after one of `/generated/`, `/post/`, `/status/`, `/imagine/post/` (any case), at a UUID |
| Utils.FirstMarked | js/utils.js:12 | the leftmost position where the marker pattern matches; nothing when it matches nowhere |
| Utils.ExtractPostId | js/utils.js:9-21 | null for an empty URL; any result is a lower-case UUID |
| Utils.ExtractPostIdSpec | js/utils.js:9-21 | null exactly when no UUID occurs in the URL; otherwise one of the UUIDs that occur, lower-cased |
| Utils.ExtractPostIdPrefersMarker | js/utils.js:12-13 | with a marker match, the result is the UUID after the leftmost marker match |
| Utils.ExtractPostIdFallsBackToLast | js/utils.js:15-19 | without a marker match, the result is the last match of the global search |
| Utils.ExtractPostIdOfUuid | js/utils.js:9-21 | a bare UUID resolves to itself, lower-cased |
| Utils.ExtractPostIdIdempotent | js/utils.js:9-21 | resolving a resolved id again gives the same id |
| Utils.HexRun | js/utils.js:33 | the greedy `[0-9a-f]+` run: all hex, stopped by a non-hex character or the end |
| Utils.IdCaptureAt | js/utils.js:33 | the capture `([0-9a-f-]{36}\|[0-9a-f]{8,})` is a substring of at least 8 characters at that position |
| Utils.LinkCaptureAt | js/utils.js:33 | a link capture exists only at a position inside the href |
| Utils.FirstLinkMatch | js/utils.js:33 | the leftmost position where the link pattern matches; nothing when it matches nowhere |
| Utils.QueryOf | js/utils.js:36-38 | `new URL(href).search`: empty, or a `?` followed by at least one character, taken from the href |
| Utils.FirstPostLink | js/utils.js:30-46 | the first link that is non-empty, not a profile link and matches the link pattern; no earlier link qualifies |
| Utils.ExtractPostDataFromElement | js/utils.js:26-67 | the definition: the first qualifying link's data, else the image fallback, else null |
| Utils.ExtractPostDataSpec | js/utils.js:26-67 | the first qualifying link gives the lower-cased capture plus query and the full href; otherwise the image's post id under `{origin}/imagine/post/`; null exactly when neither exists |
| ItemClassifier.TypeName | js/classifier.js:6-9 | the two type names, and `STATIC_IMAGE` names exactly the static kind |
| ItemClassifier.DigitRun | js/classifier.js:18 | the greedy `\d+` run: all digits, stopped by a non-digit or the end |
| ItemClassifier.MatchGivesDigitColonDigit | js/classifier.js:18 | a match of `\d+:\d+` contains a digit, a colon and a digit side by side |
| ItemClassifier.DigitColonDigitGivesMatch | js/classifier.js:18 | a digit, a colon and a digit side by side make `\d+:\d+` match |
| ItemClassifier.DurationIffDigitColonDigit | js/classifier.js:18 | `\d+:\d+` matches exactly when some digit-colon-digit triple occurs |
| ItemClassifier.HasDuration | js/classifier.js:18 | the definition: `\d+:\d+` matches somewhere in the card text |
| ItemClassifier.Classify | js/classifier.js:14-38 | static exactly when the card has an image, no video, no play icon and no duration text; the details report those four facts |
| ItemClassifier.VideoNeverStatic | js/classifier.js:22-24 | a card with a video or a play icon is sent to deep analysis |
| ItemClassifier.NoImageIsComplex | js/classifier.js:22-24 | a card without an image is sent to deep analysis |
| ItemClassifier.DurationTextIsComplex | js/classifier.js:18-24 | a card whose text shows `m:ss` is sent to deep analysis |
| MediaScanner.Put | js/scanner.js:50 | `Map.set`: an existing key keeps its place, a new key goes last; the entry is present afterwards and one entry per key is kept |
| MediaScanner.StaticEntry | js/scanner.js:48-50 | the definition: the synthesised image URL of the card's UUID and its `{uuid}.jpg` name |
| StaticUrls.StaticEntryRoundTrip | js/scanner.js:46-50 | the synthesised URL resolves back to the post id of the card's id, and its file part is the filename filed with it |
| MediaScanner.VisitCard | js/scanner.js:32-57 | the definition: one card of an attempt, skipped when it has no post data or was processed, else recorded and filed or queued |
| MediaScanner.Identify | js/scanner.js:24-65 | the definition: phase 1 over its attempts, each over the cards that attempt shows |
| MediaScanner.VisitCardKeepsValid | js/scanner.js:31-58 | one card keeps phase 1's invariant: one entry per URL, every entry a static entry of a recorded id, queued ids recorded and distinct |
| MediaScanner.RevisitedCardIsIgnored | js/scanner.js:38-40 | a card element already processed changes nothing |
| MediaScanner.RecordedIdIsIgnored | js/scanner.js:43-44 | a post id already recorded is neither filed nor queued again |
| MediaScanner.FreshCardIsRecorded | js/scanner.js:43-55 | a fresh card with a fresh id records both; a static one files its entry `StaticEntry` (URL and `{uuid}.jpg` name), any other is queued last |
| MediaScanner.VisitCardsKeepsValid | js/scanner.js:31-58 | a whole attempt keeps phase 1's invariant |
| MediaScanner.IdentifyValid | js/scanner.js:24-65 | phase 1 after any number of attempts satisfies its invariant |
| MediaScanner.IdentifyIgnoresLaterRounds | js/scanner.js:25 | phase 1 depends on no round past the attempts it runs |
| MediaScanner.MergeItem | js/scanner.js:80-86 | the definition: one reply item filed under its URL unless it has none or the URL is a key |
| MediaScanner.MergeAll | js/scanner.js:79-87 | the definition: the reply items merged in order |
| MediaScanner.MergeReply | js/scanner.js:76-91 | the definition: a rejected analysis changes nothing, a resolved one is merged |
| MediaScanner.AfterAnalysis | js/scanner.js:69-94 | the definition: the queued posts analysed in order up to the first cancelling poll |
| MediaScanner.FilterMode | js/scanner.js:97-103 | the definition: the mode filter on the `.mp4` ending of the lower-cased filename |
| MediaScanner.ScanSpec | js/scanner.js:10-106 | the definition: phase 1, then phase 2, then the filter |
| MediaScanner.Filename | js/scanner.js:81-82 | a reply item's filename ends in `.mp4` exactly when its type is `video` |
| MediaScanner.MergeItemSpec | js/scanner.js:79-87 | an item is appended exactly when its URL is non-empty and not yet a key, under `{id}.{ext}`; nothing else changes |
| MediaScanner.MergeAllExtends | js/scanner.js:79-87 | merging a reply keeps every old entry in place and one entry per URL |
| MediaScanner.MergeAllCovers | js/scanner.js:79-87 | every reply item with a URL has that URL in the merged map |
| MediaScanner.MergeAllAddsOnlyNew | js/scanner.js:83-85 | every appended entry comes from a reply item whose URL the old map lacked |
| MediaScanner.MergeAllSpec | js/scanner.js:79-87 | the merge keeps old entries, adds only new URLs, and adds every URL it meets |
| MediaScanner.ExtensionKeepsUrls | js/scanner.js:83-85 | a map that extends another still has all of its keys |
| MediaScanner.MergeReplySpec | js/scanner.js:76-91 | a rejected analysis changes nothing; a resolved one extends the map with all its URLs |
| MediaScanner.AfterAnalysisExtends | js/scanner.js:69-94 | the analysis phase never disturbs what phase 1 filed and keeps one entry per URL |
| MediaScanner.AfterAnalysisCovers | js/scanner.js:69-94 | a post whose analysis resolved has all its URLs filed, whatever happened to the other posts' analyses |
| MediaScanner.FilterModeSpec | js/scanner.js:97-105 | the filter keeps exactly the entries the mode admits (by a case-insensitive `.mp4` ending), in map order, and other modes keep all |
| MediaScanner.IdentifyVisible | js/scanner.js:31-58 | the loop over one attempt's cards computes the phase-1 state of that attempt |
| MediaScanner.MergeResults | js/scanner.js:79-87 | the `forEach` over one reply computes the merge of that reply |
| MediaScanner.Scan | js/scanner.js:10-106 | `scan`: aborted on a phase-1 cancel; otherwise the filtered map after analysing the queued posts up to the first phase-2 cancel |
| MediaScanner.ScanResultSpec | js/scanner.js:10-106 | a finished scan lists each URL once, and only entries its mode admits |
| MediaScanner.ScanKeepsStaticEntries | js/scanner.js:46-50 | with no mode filter, every static entry from phase 1 survives into the result, in its place |
| MediaScanner.ScanIgnoresLaterRounds | js/scanner.js:25 | page rounds past the third never influence the scan |
| MediaScanner.SweepCard | js/scanner.js:130-160 | the definition: click when the button shows, and call the API for a new id when nothing was clicked |
| MediaScanner.EndRound | js/scanner.js:164-166 | the definition: the unchanged counter and the recorded height after a round |
| MediaScanner.PlayRound | js/scanner.js:125-169 | the definition: one round's cards and its end, with the quiet exit |
| MediaScanner.SweepFrom | js/scanner.js:124-173 | the definition: the `while (!isCancelled())` loop from one round on |
| MediaScanner.SweepCards | js/scanner.js:128-161 | the inner loop never touches the heights, the counter or the exit, and an empty rest of the round changes nothing |
| MediaScanner.PlayRoundReady | js/scanner.js:124-173 | a round that does not end the sweep leaves it ready for the next |
| MediaScanner.SweepFromStep | js/scanner.js:124-173 | a poll that does not cancel plays one round, which either ends the sweep or is where the loop continues |
| MediaScanner.SweepCardCallsIff | js/scanner.js:146-158 | the API is called for a card exactly when it has no unsave button and a new non-empty post id, and then with that id |
| MediaScanner.SweepCardKeepsValid | js/scanner.js:132-158 | a card keeps the sweep's invariant and each action counts once in both `actedOnThisTurn` and `totalProcessed` |
| MediaScanner.SweepCardsKeepsValid | js/scanner.js:128-161 | a round's cards keep the invariant and add as much to `actedOnThisTurn` as to `totalProcessed` |
| MediaScanner.EndRoundKeepsValid | js/scanner.js:164-166 | the height update keeps the invariant and records the height read |
| MediaScanner.PlayRoundSpec | js/scanner.js:124-169 | a round keeps the invariant, and ends the sweep exactly when it did nothing and the counter reached 2 |
| MediaScanner.SweepFromSpec | js/scanner.js:124-173 | the sweep ends, on a cancel poll or after a round that did nothing with the height settled, and keeps the invariant |
| MediaScanner.SweepSpec | js/scanner.js:111-176 | `totalProcessed` is clicks plus API calls, no post is unliked twice, and the sweep ends only on a cancel or when nothing happened with the height settled |
| MediaScanner.QuietExitMeansSettled | js/scanner.js:165-169 | a quiet exit means the last two heights each equal the one recorded before them |
| MediaScanner.SweepRoundBody | js/scanner.js:125-169 | one pass of the sweep body after its poll computes the round the sweep plays from the state before it |
| MediaScanner.UnsaveVisible | js/scanner.js:128-161 | the loop over one round's cards computes the round's counters, processed ids, API calls and polls |
| MediaScanner.UnsaveAll | js/scanner.js:111-176 | the loop returns the sweep's `totalProcessed` and the ids unliked through the API, in order |
| Background.ExtractPostIdFromUrl | background.js:120-130 | any result is a lower-case UUID |
| Background.ExtractPostIdFromUrlAgrees | background.js:120-130 | the service worker's copy agrees with `Utils.extractPostId` on every input |
| Background.IsMediaUrl | background.js:153 | the definition: the URL contains `.mp4`, `.jpg`, `.png`, `.webp` or `blob:` |
| Background.Relay.constructor | background.js:137-143 | a new relay holds no URLs |
| Background.Relay.Reset | background.js:195 | resetting empties the list |
| Background.Relay.PushUrl | background.js:145-163 | a non-empty URL containing `.mp4`, `.jpg`, `.png`, `.webp` or `blob:` and not yet listed is appended; otherwise nothing changes; no duplicates and only media URLs are ever listed |
| Background.IsDownloadButton | background.js:201-208 | the definition: a download or save word in the label, text or title, and `upscale` in neither text nor label |
| Background.FindButton | background.js:198-210 | the definition: `Array.find` of that test over the controls in document order |
| Background.IsImageTab | background.js:299-306 | the definition: an image, version, variations, 画像 or バリエーション word in the text or label |
| Background.ButtonFrom | background.js:212-220 | the definition: the first try of the button wait that shows a download button |
| Background.FindFirst | background.js:200 | `Array.find`: the first element passing the test, and none before it passes; nothing when none passes |
| Background.FindButtonSpec | background.js:198-210 | `findBtn` returns the first control in document order that passes the download test; nothing exactly when none passes |
| Background.UpscaleIsNotDownload | background.js:208 | a control whose text or label mentions `upscale` is never taken for the download button |
| Background.SwitchTab | background.js:296-313 | at most one tab is clicked: the first whose text or label names an image, version or variations tab; none exactly when none qualifies |
| Background.ButtonFromSpec | background.js:212-220 | the button wait yields a download button shown at one of its 16 tries, or nothing exactly when no try showed one |
| Background.WaitForButton | background.js:212-220 | the retry loop computes the result of the button wait |
| Background.RunStart | background.js:259-271 | the start of the current stretch of equal non-zero counts: every pass in it is steady and the pass before it is not |
| Background.QuietAt | background.js:259-267 | the definition: a non-zero count unchanged since a pass at least 600 ms back |
| Background.EmptyTimeoutAt | background.js:272-283 | the definition: an empty relay at 2 s with a button found, or at 1.5 s without one |
| Background.IdleExitFrom | background.js:236-286 | the first pass where a stop rule holds: the 4 s ceiling, 600 ms of an unchanged non-zero count, or an empty relay after 2 s (button found) or 1.5 s (no button); no earlier pass met one |
| Background.AwaitNetworkIdle | background.js:230-286 | the idle loop stops at that pass for that reason, and `firstDiscoveryTime` is the clock of the first pass that saw a URL |
| Background.RunStartIsAfterChange | background.js:268-271 | a count change restarts the quiet period from the next pass |
| Background.AddAll | background.js:81 | the definition: `Set.add` of each URL in order |
| Background.AddAllSpec | background.js:81 | `Set.add` over a list keeps the old entries first and in place, adds no duplicate, and holds exactly the old entries and the list's URLs |
| Background.AddResult | background.js:80-82 | the `forEach` over one scrape result computes that accumulation |
| Background.CollectedMediaSpec | background.js:74-99 | the video step's URLs come first; the image step adds only new ones; no URL repeats; nothing else is collected |
| Background.TargetUrl | background.js:49 | the definition: the post's URL when given, else its post page |
| Background.TargetUrlNamesPost | background.js:49 | without a given URL the tab opens a page whose post id resolves back to the analysed id, lower-cased |
| Background.ToItem | background.js:107-111 | the definition: the URL with its own post id or the analysed post's, typed by `.mp4` |
| Background.MapResults | background.js:105-111 | the definition: the URLs longer than five characters, each mapped by `ToItem` |
| Background.MapResultsSpec | background.js:104-111 | exactly the collected URLs longer than five characters are reported, typed `video` exactly when they contain `.mp4`, with their own post id or else the analysed post's |
| Background.AnalyzePostInTab | background.js:44-117 | the reply is that mapping of the video-step URLs followed by the new image-step URLs |
| ContentNames.FirstVideoIdAt | content.js:94 | the leftmost match of `/generated/{lower-case uuid}/`; nothing when it matches nowhere |
| ContentNames.ExtractVideoId | content.js:91-99 | null exactly when the pattern matches nowhere; otherwise the lower-case UUID of the leftmost match |
| ContentNames.ExtractPostId | content.js:367-374 | any result is a UUID |
| ContentNames.ExtractPostIdLeftmost | content.js:367-374 | null exactly when no UUID occurs; otherwise the leftmost UUID with its case kept |
| ContentNames.FileName | content.js:382 | the text after the last `/`: a suffix of the URL with no `/`, preceded by a `/` when shorter |
| ContentNames.StripImageExtension | content.js:383 | the result is a prefix of the file name |
| ContentNames.ExtractBaseName | content.js:381-384 | the base name is a prefix of the last path component |
| ContentNames.StripImageExtensionSpec | content.js:383 | the name is unchanged exactly when it has no `.png`, `.jpg` or `.jpeg` ending (any case); otherwise exactly that ending is cut |
| ContentNames.BaseNameHasNoSlash | content.js:381-384 | the base name is a single path component |
| ContentNames.IsValidUrl | content.js:392-394 | true exactly when some pattern occurs in the URL |
| ContentNames.Segments | content.js:319 | `split('/').filter(Boolean)` yields non-empty, slash-free segments |
| ContentNames.SegmentsOfPath | content.js:319 | splitting a path built from segments gives back those segments |
| ContentNames.AlnumSuffix | content.js:330 | the longest run of letters and digits ending the string |
| ContentNames.TrailingExtension | content.js:330 | the capture of `(\.[a-zA-Z0-9]{1,5})$`: an extension ending the string, and nothing exactly when the string has none |
| ContentNames.DefaultExtension | content.js:331 | `.mp4` or `.png` is an extension |
| ContentNames.Timestamped | content.js:353-355 | the timestamped name has an extension and is one path component |
| ContentNames.LastUuidSegment | content.js:326-334 | the backward loop stops at the last segment that is a whole UUID; nothing when no segment is |
| ContentNames.KeptExtension | content.js:330-331 | the last segment's own extension when it has one, else the default |
| ContentNames.PlainNameHasExtension | content.js:336-355 | every name of the branches without a UUID has an extension |
| ContentNames.DetermineFilename | content.js:316-360 | the definition: the UUID branch, then the fallbacks in source order |
| ContentNames.DetermineFilenameHasExtension | content.js:316-360 | every chosen filename ends in `.` and one to five letters or digits |
| ContentNames.DetermineFilenameUuidBranch | content.js:319-334 | with a UUID segment, the name is the last such segment followed by the last segment's extension, or by the default when it has none |
| ContentNames.DetermineFilenameWithoutUuid | content.js:336-355 | without a UUID segment, in order: a last segment with an extension; the fallback base plus the default; a last segment other than `content` plus the default; the timestamped name |
| ContentNames.DetermineFilenameIsComponent | content.js:316-360 | with a slash-free fallback base, the chosen filename is one path component |
| ContentNames.StripQuery | content.js:894 | `split('?')[0]`: a prefix of the source with no `?`, the whole source exactly when it has none |
| ContentNames.PathName | content.js:318-319 | a pathname starts with `/` and holds no `?` or `#` |
| ContentNames.ReplaceFirst | content.js:921 | a string-pattern `replace` changes only the leftmost occurrence, and nothing when there is none |
| ContentNames.HdName | content.js:922 | the HD name is the name unchanged or three characters longer |
| ContentNames.HdNameOfExtension | content.js:922 | for a name with an extension, `-HD` goes between the stem and that extension |
| ContentNames.HdNameWithoutDot | content.js:922 | a name without a dot is left unchanged |
| ContentNames.TallestUpTo | content.js:475-477 | the running `reduce` choice among the first `n` candidates: the tallest, and strictly taller than every earlier candidate |
| ContentNames.ChooseContainer | content.js:474-477 | without candidates the document element is kept; otherwise the first candidate of maximal `scrollHeight` is chosen |
| ContentScroll.Wants | content.js:1088-1090 | the definition: the three handlers' filters, `hasImage`, `!hasVideo && hasImage` (content.js:1147-1149) and `hasVideo` (content.js:1206-1208) |
| ContentScroll.ItemPostId | content.js:509-523 | the definition: the first UUID of an accepted item's image `src` |
| ContentScroll.AddItems | content.js:504-529 | the definition: the `forEach` over a round's items |
| ContentScroll.CollectFrom | content.js:495-546 | the definition: the quiescence loop from one round on, with the cancel poll before each round |
| ContentScroll.RoundAdvances | content.js:537-544 | an unsettled round records its card count, moves the counter, and shrinks the bound on the rounds left |
| ContentScroll.AddItemsExtends | content.js:504-529 | a round keeps the ids already collected in place and adds no duplicate |
| ContentScroll.InRoundWitness | content.js:504-529 | an id is found in a round exactly when some accepted item of that round yields it |
| ContentScroll.InRoundsWitness | content.js:495-529 | an id is found in the first `n` rounds exactly when one of those rounds yields it |
| ContentScroll.NoteMembers | content.js:525-527 | `Set.add` of an optional id holds the old ids and that id |
| ContentScroll.AddItemsMembers | content.js:504-529 | after a round the ids are the earlier ones plus those of the round's accepted items |
| ContentScroll.IdsAfterDistinct | content.js:481-529 | the collected ids are distinct |
| ContentScroll.IdsAfterMembers | content.js:495-529 | after `n` rounds the ids are exactly those of the accepted items of those rounds |
| ContentScroll.UnsettledStep | content.js:495-500 | an unsettled, uncancelled round followed by such rounds makes a stretch of them |
| ContentScroll.CollectFromReturns | content.js:495-564 | a collection that returns does so right after the first round whose counter reaches five, with no cancel polled before |
| ContentScroll.CollectFromThrows | content.js:495-500 | a collection that throws does so at the first poll that says cancel, before it settled |
| ContentScroll.CollectedIdsSpec | content.js:458-565 | a returned collection saw the same card count in each of its last five rounds, and holds each accepted id of its rounds exactly once |
| ContentScroll.CollectionEnds | content.js:495-546 | without a cancel the collection returns, given a page that shows no cards past the given rounds |
| ContentScroll.AddRoundIds | content.js:503-529 | the `forEach` over one round's items computes that round's ids |
| ContentScroll.CollectStep | content.js:495-546 | an unsettled round without a cancel adds its ids, and the loop continues from the next round |
| ContentScroll.CollectPostIds | content.js:458-565 | `scrollAndCollectPostIds`: the loop computes the collection's outcome, ids and rounds, or the thrown cancel |
| ContentScroll.Successes | content.js:1115-1123 | the success count of `n` calls is at most `n` |
| ContentScroll.SuccessesSpec | content.js:1115-1123 | all calls succeeded exactly when the count is full, and none did exactly when it is zero |
| ContentScroll.UnfavoriteAll | content.js:1106-1134 | up to the first cancel, each finished item adds one to exactly one counter, the success counter counts the successful calls, and the cancel position is reported |
| ContentScroll.HandleUnsave | content.js:1084-1138 | a cancelled collection ends the handler; no ids means "nothing found"; otherwise every id is offered to the unfavorite loop, whose success and fail counts are the successful and failed calls before the first cancelling poll, their sum is that poll's item, and the cancel position is reported exactly when a poll cancels |
| ContentScroll.ImageStep | content.js:892-904 | the definition: the image half of a card |
| ContentScroll.VideoFilename | content.js:914-915 | the definition: `{imageName}.mp4` for a UUID image name, else the chooser |
| ContentScroll.VideoStep | content.js:907-932 | the definition: the video half of a card, with the HD probe |
| ContentScroll.CardStep | content.js:888-934 | the definition: one card, stopped by the `shouldUpscale` ReferenceError in `saveImages` mode |
| ContentScroll.VisitCards | content.js:885-936 | the definition: the walk over the cards up to the first thrown error |
| ContentScroll.ImageStepEntries | content.js:892-904 | the image half pushes at most the card's image, only outside `saveVideos` mode and under a query-stripped URL `seen` lacked |
| ContentScroll.VideoStepEntries | content.js:907-932 | the video half pushes at most the video under a new stripped URL and then its HD twin, only when that is new and `checkVideoExists` confirms it |
| ContentScroll.CardStepEntries | content.js:888-934 | every entry a card appends is its image, video or HD twin, each under a distinct URL `seen` lacked before the card |
| ContentScroll.VisitCardsEntries | content.js:885-936 | every entry the walk appends is an image, video or confirmed HD twin of a visited card, under a distinct URL `seen` lacked when the walk began, so no recorded URL is pushed again |
| ContentScroll.GrowsByGrows | content.js:885-936 | growth by distinct new keys adds as many entries as newly recorded URLs, keeping old entries in place |
| ContentScroll.SeenCardAddsNothing | content.js:898-911 | a card whose query-stripped URLs are all recorded adds nothing |
| ContentScroll.SaveImagesThrows | content.js:907 | in `saveImages` mode the walk stops with the ReferenceError after the first card's image |
| ContentScroll.VideoFilenameHasExtension | content.js:914-915 | every video filename has an extension |
| ContentScroll.VideoHdName | content.js:914-922 | the HD name of every video filename is its stem, `-HD` and its extension |
| ContentScroll.MediaCollection.constructor | content.js:885 | the shared `media` list and `seen` set start empty |
| ContentScroll.MediaCollection.CollectCard | content.js:888-934 | one pass over a card updates the list and the set as the card step says, and reports the ReferenceError |
| ContentScroll.MediaCollection.CollectFromVisibleCards | content.js:885-936 | the walk updates the list and set as the card walk says, and only appends: one entry per newly recorded URL, each the image, video or confirmed HD twin of a visited card |

## Left out

- **Excluded components.** The progress modal (js/ui.js, content.js:104-265), and percentages and messages in general, are not modelled. Only `isCancelled()` is kept, as the `cancelled` oracle.
- popup.js is not part of this model.
- js/api.js is not part of this model. `requestAnalysis` is the `analyze` oracle, and a rejection is `Rejected`. A reply that is not an array is not modelled separately.
- **Chrome APIs and browser plumbing.** The `chrome.tabs`, `chrome.scripting`, `chrome.downloads` and `chrome.storage` calls are left out, together with:
  - the 8 s tab-load wait and every `sleep` or `setTimeout` pause;
  - the download scheduling of background.js:318-345.
  - `AnalyzePostInTab` starts from the two scrape results.
- **Network sniffer.** The fetch/XHR hooks of the sniffer are left out. The conversion of `URL` and `Request` objects to strings in `pushUrl` is not modelled, and neither is the JSON encoding of the relay list: the relay holds the list itself.
- **Clock.** Clock readings are parameters:
  - `Date.now()` in the timestamped filename is `now`.
  - Each pass of the idle loop is one `Tick`.
  - Background.AwaitNetworkIdle: several `Date.now()` readings inside one pass are taken as one reading after the pause.
- **Network oracles.** `unlikePost`, `upscaleVideo` with its abort timeout, and `checkVideoExists`/`checkVideoExistsHTTP` (content.js:37-84, 401-451) are oracles. An `unlikePost` call that throws counts as a failure.
- **Upscale dispatch.** The upscale handler and its staggered `Promise.all` dispatch (content.js:941-1025) are concurrency and timing, and are not modelled.
- **Simple scroll loops.** The other scroll loops (`scrollToLoadAll`, `scrollAndCollectVideosForUpscale`, `scrollAndCollectMedia`, content.js:571-880) and the `handleSave` driver are not modelled. They repeat the quiescence counter of `Quiescence`.
- **URL parsing.** `new URL()` is simplified in two places:
  - ContentNames.PathName: the part after `scheme://` and the authority, up to `?` or `#`. It does no percent-decoding, no dot-segment removal and no host validation.
  - Utils.QueryOf: the text from the first `?` to a `#`.
- Background.MapResults: JavaScript's `url.length > 5` counts UTF-16 code units, while the model counts characters. The two differ only for URLs with characters outside the Basic Multilingual Plane.
- ContentScroll.VisitCards: one `now` serves every timestamped filename of a walk, while content.js:355 reads `Date.now()` at each call.
- ContentScroll.CollectFrom: the source loop (content.js:495) has no bound, and a page whose card count never holds for five rounds keeps it running forever. The model's page shows no cards past the given rounds, so every run settles, and runs that never settle are not modelled.
- ContentScroll.CollectionEnds: it returns only because of that padding, not because the source loop is bounded.
- MediaScanner.SweepFrom: likewise, the sweep (js/scanner.js:124) runs until a cancel or a quiet round. The model's page shows no cards and the last height past the given rounds, so a sweep whose height never settles is not modelled.
- **Lower-casing.** `toLowerCase` is ASCII only. Non-ASCII case mapping is not modelled.
- **Known defects, not asserted as working:**
  - MediaScanner.SweepCard: js/scanner.js:133 reads `SELECTORS.UNSAVE_BUTTON`, and js/scanner.js:153 calls `window.Api.unlikePost`. js/constants.js and js/api.js define neither. The model takes the button's presence as an input and treats the call as completing, with its result ignored. It does not capture the thrown TypeError that ends the sweep as written.
  - ContentScroll.CardStep: content.js:907 reads the undeclared `shouldUpscale` whenever the mode is neither `saveVideos` nor `saveBoth`. The model records the thrown ReferenceError as `false` and stops the walk. It does not model the upscale mode that the name suggests.
  - The clash between content.js's top-level `const` declarations and the `var`s of js/ui.js and js/constants.js is a loading error, and is not modelled.
- **Missing UUID.** MediaScanner.StaticEntry: when `extractPostId` finds no UUID in the card's id, the template literal prints `null`. The model keeps that text as written and does not decide whether such an id can reach this point.
- **Fire-and-forget unsave.** ContentScroll.HandleUnsave: `handleUnsave` does not await the handlers, so a cancelled collection is an unhandled rejection. The model reports it as `CollectionCancelled`. The final alert texts are not modelled.
- **Null fallback base.** ContentNames.DetermineFilename: a `fallbackBase` of `""` stands for `null`; both are falsy in the source.
- **Element identity.** Card identity is a number standing for the DOM element, which is the key of the `WeakSet` at js/scanner.js:21. DOM queries are reduced to their answers.
- **Unparsable hrefs.** Utils.ExtractPostDataFromElement: the `try`/`catch` around the whole search is not modelled. A `new URL` on an href that cannot be parsed would make it return null; the model treats every href as absolute.
