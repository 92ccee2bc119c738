# Verified model of the backend's algorithms

This project models, in Dafny, the parts of the backend whose behaviour is hard to see from one function body,
and proves what those parts promise. Every module states its own contracts; no module needs anything outside
this directory. `dafny verify dfyconfig.toml` checks the whole project.

| module | what it models |
|---|---|
| `CrawlUrl`, `FormUrlEncoded` | the canonical form of crawl URLs: Python's `urlparse`, `parse_qsl`, `urlencode`, `urlunparse` and the filter and sort in between |
| `SiteGraph`, `VisitOrder`, `Crawler` | the link graph of a site, the order in which its pages are found, and the breadth-first crawl with depth, page and byte budgets |
| `Mirroring` | the link rewriter, the writing of the mirror, and the import job around it |
| `Colors`, `Palette`, `PaletteEndpoints` | colour conversions exactly and as a machine computes them, WCAG luminance and contrast, the lightness search, and the palette endpoints |
| `ToolStream` | the tool-calling event stream of a chat turn |
| `Automation` | the claim, enqueue and rollback protocol of automation actions, over every interleaving |
| `Embedding`, `BulkIngest` | the two restartable batch jobs of the knowledge base |
| `LikeEscape` | LIKE patterns with an escape character |
| `Utf8`, `TokenSpans` | UTF-8 with replacement decoding, and byte spans turned into character spans |
| `SegmentScan` | the two greedy scanners of the migration script |
| `SafePath`, `FileTree` | the path sanitiser of the file endpoints and the file listing |
| `AuditExport` | the chunked exports |
| `HelpScore`, `HelpSearch` | the lexical score as a machine computes it, and the ranking of the help search |
| `Rounding`, `Binary64` | rounding to 53 significant bits, and what it does to colours and help scores |
| `Strings`, `Sorting`, `Options` | the library operations the others share |

Oracles replace what the code calls and cannot control: a page fetch, a tool, an approval, an embedding call, a
commit or a queue operation may answer anything it can answer, or fail. Code that updates variables in a loop is
a method with that loop, proved against functions and predicates that say what it must compute; objects whose
fields change are classes.

## What the proofs found

* **URL normal form.** Two URLs normalise alike exactly when scheme, case-folded network location, path and the
  multiset of decoded, non-tracking query pairs agree. Normalising twice is *not* the identity when the normal form
  ends in white space: `http://h/a #x` becomes `http://h/a `, and that becomes `http://h/a`. `NormalizeIdempotent`
  says exactly when this happens.
* **Malformed links.** Link normalisation runs outside the crawler's `try` blocks, so a link that makes the standard
  library's parser raise aborts the whole import: always when its page and all pages that are no farther away fit the
  page cap, and never unless all pages closer than it leave room in the cap; so exactly when some page within reach
  has one where the cap does not bind (`Crawler.Crawl`, `Mirroring.RenderSite`, `Mirroring.ImportWebsite`). A start
  page with a link to `http://[` is enough (`Mirroring.RefusedLinkSite`).
* **Page count.** The crawl returns the number of visited pages, so the "no pages could be rendered" error of the
  import job cannot occur: a site whose start page does not render is imported with a page count of one.
* **Page files.** Two pages may map to the same file; the later one then replaces the earlier. A page is on disk
  exactly when no later one has its file (`Mirroring.WritePages`).
* **Colour round trip.** A hex colour converted to HSL and back may lose one from a channel, because `int()` cuts a
  computed component that falls short of its channel; it comes back exactly when none does
  (`Palette.HslHexRoundTrip`). With every operation rounded to binary64, as Python's floats are, `#000505` comes back
  as `#000405` (`Binary64.DarkCyanIsLost`).
* **Lightness search.** The hundredth lighter attempt need not be pure white either, but its channels are 254 or 255,
  which is enough: the search reaches every ratio whose square is at most 20.8, and so 4.5. Where that attempt is
  pure white, the search reaches a ratio exactly when white or black does.
* **Contrast flags.** The flags of a contrast pair compare a ratio rounded to two places, so they pass from 4.495,
  2.995 and 6.995 on: `#959595` on white fails 3 to 1 and is flagged as passing. The matrix flag `all_aa_pass` tests
  the large-text threshold.
* **Automation.** With a queue that reports failures truthfully, at most one job is queued per action, and *no*
  queued job ever executes, because the claim sets `executed_at` and the worker refuses rows that have it set. If an
  enqueue succeeds but its reply is lost, then from any claim the rollback lets the worker execute and leaves the
  row executable, and the next request queues the same action a second time.
* **Stream.** The handlers that delete the user message use a name that is bound only after the loop
  (`backend/app/api/messages.py:1202`), so the deletion happens exactly for httpx failures after a loop that ended
  well; a model that cannot be reached leaves the message behind (`ToolStream.EarlyFailureKeepsMessage`).
* **Embedding.** After a failure `chunks_processed` counts chunks that were never committed exactly when the batch
  that stopped the run had answered at least one vector (`Embedding.OvercountsWhen`, `Embedding.OvercountExample`).
* **Bulk ingestion.** The failure handler writes the status `failed` and ignores a store that refuses it, so a batch
  whose store stops working stays `processing`; and a failure after the final publication reports `failed` over a
  record that is complete. A file whose publication is refused has stored its chunks all the same
  (`BulkIngest.Batch.Ingest`).
* **JSON scan.** After a start whose braces stay open too long, the scan resumes 100002 characters behind it. A start
  is never tried exactly when it lies inside a candidate or in such a stretch (`SegmentScan.NeverTried`), so a small
  object right behind an unclosed brace is lost (`SegmentScan.ShadowedIsMissed`).
* **Sanitised paths.** A backslash can hide a path to the mount itself: `.\.` is accepted as `./.`.
  `SafePath.AcceptsMount` says exactly when that happens.
* **Listed paths.** A path in the file listing opens its entry exactly when no name on the way holds a backslash or a
  control character: a file called `a\b` is listed under a path that leads to `b` in a directory `a`
  (`FileTree.ListingOpens`, `FileTree.BackslashNameIsLost`).
* **Help scores.** The points 1.8, 0.8 and 0.4 are not binary fractions. For four terms that are found everywhere the
  sum divided by the maximum exceeds 1 and the clamp cuts it off; for twelve it stays below 1
  (`Binary64.FourTermsExceed`, `Binary64.TwelveTermsFallShort`).

## Model

| member | source | states |
|---|---|---|
| CrawlUrl.NormalFormCanonical | backend/app/worker.py:1061-1081 | two crawlable URLs have equal normal forms if and only if they agree on scheme, lower-cased network location, path without parameters (empty meaning `/`) and on how often each decoded query pair occurs whose lower-cased name is no tracking key |
| CrawlUrl.KeepPairsCount | backend/app/worker.py:1065-1069 | the filter keeps every occurrence of a pair that does not track and none of one that does |
| CrawlUrl.QueryInOrder | backend/app/worker.py:1070 | the pairs of a normal form's query stand in the order of their names, and for one name of their values |
| CrawlUrl.ParseOfText | backend/app/worker.py:1062 | any http or https URL, in any letter case of the scheme and with or without query and fragment, parses into lower-cased scheme, network location, path without parameters and query |
| CrawlUrl.DropParamsOf | backend/app/worker.py:1062 | parameters start at the first `;` of the last path segment |
| CrawlUrl.NormalizeIdempotent | backend/app/worker.py:1061-1081 | normalising a normal form gives it back if and only if the parsed URL has no blank tail (a query left, or a path not ending in white space) |
| CrawlUrl.NotIdempotentExample | backend/app/worker.py:1062-1063 | a concrete URL whose normal form normalises to something else |
| CrawlUrl.ParseOfPrinted | backend/app/worker.py:1071-1080 | parsing a printed normal form recovers its components, so printing is injective on them |
| CrawlUrl.BlankTailLost | backend/app/worker.py:1062-1080 | every normal form with a blank tail changes when normalised again |
| CrawlUrl.KeptOfCanonical | backend/app/worker.py:1065-1070 | the kept query pairs of a normal form are the sorted kept pairs of the URL |
| FormUrlEncoded.ParseOfEncode | backend/app/worker.py:1067-1070 | `parse_qsl` with blank values kept undoes `urlencode` on every list of pairs, including empty names and values |
| FormUrlEncoded.ParseQslConcat | backend/app/worker.py:1067 | each `&` of a query separates its pairs |
| FormUrlEncoded.ParseNamed | backend/app/worker.py:1067 | the first `=` of a field ends its name, both parts decoded |
| FormUrlEncoded.ParseUnnamed | backend/app/worker.py:1067 | a field without `=` is a name with an empty value, and an empty field is nothing |
| FormUrlEncoded.UnquoteOfQuotePlus | backend/app/worker.py:1067-1070 | percent-decoding undoes percent-encoding on every text, through UTF-8 |
| FormUrlEncoded.EncodedAlphabet | backend/app/worker.py:1070 | an encoded query holds only unreserved characters, `%`, `+`, `=` and `&`, and is empty exactly for no pairs |
| SiteGraph.ReachIffPath | backend/app/worker.py:1375-1385 | a page is reachable in at most n steps if and only if a path of at most n links leads to it |
| SiteGraph.DistanceBounds | backend/app/worker.py:1375-1385 | a page at distance d is reached within k steps if and only if d is at most k |
| Crawler.Crawl | backend/app/worker.py:1344-1440 | the crawl is breadth-first: it visits only same-host pages within the depth cap, never more than the page cap, all of them unless the page cap stopped it, and then nothing it left out is closer than anything it visited; the pages are visited in the order of their first links, by the page a link stands on and then by its place there, and a crawl the cap stops has visited exactly as many pages of that order as the cap allows; its depths are the true distances, of visited and of queued pages; records come in order of distance, one per visited page that rendered; assets are distinct, within both budgets, sum to the running total, and every usable asset was taken or no longer fit at its turn, page by page and reference by reference; it raises if a page with a link the parser refuses and all same-host pages that are no farther away fit the page cap, and only if the same-host pages closer than such a page leave room in it; so exactly when some page within reach has one where the cap does not bind; a finished crawl visited no such page |
| VisitOrder.OrderUnique | backend/app/worker.py:1362-1385 | a site has one order of discovery: after more pages it only extends the order after fewer |
| Crawler.VisitsDetermined | backend/app/worker.py:1362-1385 | site and limits alone decide which pages are visited, and in which order |
| Crawler.TrailNext | backend/app/worker.py:1375-1385 | following one anchor adds a new page at the end of the order, with this anchor as its first link, or leaves the order as it is |
| Crawler.FollowAnchors | backend/app/worker.py:1375-1385 | one page's anchors: the queue stays duplicate-free, disjoint from the visited pages, with nondecreasing depths spanning at most one level, and every link of the page is known afterwards; it raises exactly when an anchor does |
| Crawler.NewDistance | backend/app/worker.py:1375-1385 | a link nothing knows yet is exactly one step farther than the page it is on |
| Crawler.Frontier | backend/app/worker.py:1362-1385 | when all pages closer than k are expanded, every page reachable within k steps is discovered |
| Crawler.NothingCloser | backend/app/worker.py:1362-1364 | no page outside the visited ones is closer to the start than a visited one |
| Crawler.CrawlDone | backend/app/worker.py:1362-1404 | the queue invariant at the end of the loop gives the breadth-first guarantee |
| Crawler.CrawlPage | backend/app/worker.py:1362-1440 | one pass of the loop keeps the crawl invariant, or stops at a link the parser refuses while all pages closer to the start are done |
| Crawler.FittingIsVisited | backend/app/worker.py:1362-1404 | a page that fits the cap together with every page that is no farther away is visited |
| Crawler.VisitedIsEarly | backend/app/worker.py:1362-1404 | a visited page leaves room in the cap for all pages closer to the start |
| Crawler.LooseVisitsAll | backend/app/worker.py:1362-1404 | where the page cap does not bind, exactly the pages within reach are visited |
| Crawler.DownloadAssets | backend/app/worker.py:1390-1440 | one page's assets: distinct downloads within both budgets, total equal to their sum, taken greedily in the order of the references, nothing that fits left behind, and every mapped URL has a file |
| Crawler.VisitPage | backend/app/worker.py:1386-1440 | recording, following and downloading one page keeps the crawl invariant, or stops at a link the parser refuses |
| Mirroring.RewriteMeaning | backend/app/worker.py:1278-1294 | the rewriter changes exactly the link attributes whose normal form has a local file, each to `/` and that file, and leaves all other text, attributes and order as they are |
| Mirroring.RewriteFails | backend/app/worker.py:1281-1288 | rewriting raises if and only if some non-exempt link makes the parser raise |
| Mirroring.WritePages | backend/app/worker.py:1446-1453 | every record has its file, holding its own page, rewritten, exactly if no later record has the same file; every rewritten link names a file that is present; it fails exactly when rewriting some page does |
| Mirroring.RenderSite | backend/app/worker.py:1325-1465 | crawl and writing together: a finished mirror is breadth-first in the order of first links, within budgets and on disk with closed links, and its counts are those of visited pages and assets; it raises for a page with a refused link that fits the page cap together with all pages that are no farther away, only for one the cap leaves room to get to, exactly for one within reach where the cap does not bind, and never when no visited page has one |
| Mirroring.ImportWebsite | backend/app/worker.py:1506-1575 | caps are clamped; the reported counts are those of the finished mirror; a page with a refused link fails the job under the same two bounds, the start page always; a dead start page is imported with a page count of one |
| Mirroring.CappedMeans | backend/app/worker.py:1506-1575 | requested depths and page caps are honoured within 1..5 and 1..200 and cut off at the ends |
| Mirroring.RefusedLinkSite | backend/app/worker.py:1375-1378 | for every parser that refuses unbalanced brackets, a concrete site whose start page links to `http://[`, and raises |
| CrawlUrl.UnbalancedIsRefused | backend/app/worker.py:1061-1064 | normalising raises for every URL whose network location has one kind of bracket without the other |
| Mirroring.RenderedCount | backend/app/worker.py:1465 | the records are those visited pages whose fetch succeeded, so the returned count is only an upper bound |
| Mirroring.StartVisited | backend/app/worker.py:1569-1570 | the start page is always visited, so the guard on a page count of zero is dead |
| Colors.HexRoundTrip | backend/app/api/drupal_local.py:595-604 | hex printing and parsing undo each other, up to letter case |
| Colors.ShortHexExpands | backend/app/api/drupal_local.py:598-599 | a three-digit colour prints as the six-digit colour with every digit doubled |
| Colors.HlsToRgbRange | backend/app/api/drupal_local.py:644-647 | over the reals, for lightness and saturation in 0..1 and any hue, all components are in 0..1 |
| Colors.RgbToHlsRange | backend/app/api/drupal_local.py:650-654 | over the reals, hue, lightness and saturation of a colour are in 0..1 |
| Colors.PrimaryHues | backend/app/api/drupal_local.py:650-654 | over the reals red, green and blue of any level have hues 0, 1/3 and 2/3, half their level as lightness, and full saturation |
| Colors.LightnessExtremes | backend/app/api/drupal_local.py:644-647 | over the reals, lightness 1 is white and lightness 0 is black, at every hue and saturation |
| Colors.HlsRoundTrip | backend/app/api/drupal_local.py:644-654 | over the reals, converting any RGB colour to HLS and back gives the same colour: the reference the computed conversions are measured against |
| Palette.LuminanceUnit | backend/app/api/drupal_local.py:607-620 | luminance is in 0..1, with white 1 and black 0, for every function that is the power 2.4 |
| Palette.GreyLight | backend/app/api/drupal_local.py:607-620 | a grey has the linear light of its channel: proportional up to 10, the power 2.4 from 11 on |
| Palette.ChannelShares | backend/app/api/drupal_local.py:614-620 | red, green and blue alone have 0.2126, 0.7152 and 0.0722 of the luminance of the grey of their level |
| Palette.LuminanceAdds | backend/app/api/drupal_local.py:614-620 | a colour is as bright as its three channels taken alone |
| Palette.PrimaryLuminance | backend/app/api/drupal_local.py:614-620 | pure red, green and blue have luminance 0.2126, 0.7152 and 0.0722 |
| Palette.LuminanceIncreases | backend/app/api/drupal_local.py:607-620 | raising one channel and lowering none makes a colour brighter |
| Palette.Contrast | backend/app/api/drupal_local.py:623-629 | every contrast ratio is between 1 and 21 |
| Palette.ExtremesContrastMost | backend/app/api/drupal_local.py:623-629 | no luminance contrasts more with a background than white or black does |
| Palette.ExtremesReach | backend/app/api/drupal_local.py:657-682 | against any background white or black reaches every ratio whose square is at most 21 |
| Palette.HslHexRoundTrip | backend/app/api/drupal_local.py:644-654 | for every arithmetic whose components stay within one channel of the exact ones: a hex colour taken to HSL and back keeps each channel or loses one from it, and it comes back, lower-cased, if and only if no computed component falls short of its channel |
| Palette.ExactIsAccurate | backend/app/api/drupal_local.py:644-654 | exact real arithmetic is such an arithmetic |
| Palette.HalfLowLoses | backend/app/api/drupal_local.py:644-654 | so is one that is always half a channel low, and with it no colour but black comes back: the bound is met |
| Binary64.DarkCyanIsLost | backend/app/api/drupal_local.py:644-654 | with every operation of both conversions rounded to binary64, `#000505` has components that cut to `#000405` |
| Palette.LastAttempts | backend/app/api/drupal_local.py:671-675 | for every such arithmetic and every colour, the hundredth lighter attempt has all channels at 254 or 255 and the hundredth darker one is black |
| Palette.SteppedIs | backend/app/api/drupal_local.py:671-673 | over the reals k clamped steps move the lightness by k hundredths, cut off at 0 and 1 |
| Palette.ExactEnds | backend/app/api/drupal_local.py:671-675 | over the reals a hundred clamped steps lead to white and to black |
| Palette.PowerBounds | backend/app/api/drupal_local.py:607-611 | comparing fifth powers with x^12 bounds the power 2.4 from both sides |
| Palette.NearExtremesReach | backend/app/api/drupal_local.py:657-682 | against any background a nearly white colour or black reaches every ratio whose square is at most 20.8 |
| Palette.AdjustLightnessForAA | backend/app/api/drupal_local.py:657-682 | a passing colour is returned unchanged; otherwise the first passing attempt, or else the first attempt of best ratio if that improves on the colour; success never goes beyond what white or black reaches; with an accurate arithmetic it always comes for ratios whose square is at most 20.8, and, where the hundredth lighter attempt is pure white, for exactly the attainable ratios, among them all whose square is at most 21 |
| Palette.SearchDirection | backend/app/api/drupal_local.py:670-680 | one direction of the search: it stops at the first passing attempt and otherwise keeps the best one so far |
| Palette.ResultAttains | backend/app/api/drupal_local.py:657-682 | any result of the search specification has these bounds: attainable if it passes, and passing whenever an accurate arithmetic's last attempts do |
| Palette.AttainableBounds | backend/app/api/drupal_local.py:623-629 | no colour contrasts with a background more than the attainable ratio |
| PaletteEndpoints.Background | backend/app/api/drupal_local.py:836-838 | the background is the first colour of greatest luminance |
| PaletteEndpoints.RedIsBackground | backend/app/api/drupal_local.py:882-892 | of `#ff0000` and `#0000ff`, red is taken as the background, wherever it stands |
| PaletteEndpoints.RedOnWhite | backend/app/api/drupal_local.py:614-629 | red on white has a ratio just below 4, and blue on white more than 8.5 |
| PaletteEndpoints.AdjustColors | backend/app/api/drupal_local.py:836-845 | with an accurate arithmetic every colour other than the background becomes the first of itself and its attempts that contrasts with it at 4.5; the background stays |
| PaletteEndpoints.PaletteGuarantee | backend/app/api/drupal_local.py:882-892 | after adjusting, each colour was the background or contrasts with it at 4.5 or more, and those that did before are unchanged |
| PaletteEndpoints.CleanColors | backend/app/api/drupal_local.py:875-880 | the request is refused exactly when some stripped colour is not six hex digits; otherwise the colours are stripped and lower-cased in order |
| PaletteEndpoints.AdjustPalette | backend/app/api/drupal_local.py:868-894 | the whole endpoint: refusal condition, background, and the guarantee for the cleaned colours |
| PaletteEndpoints.FlagThresholds | backend/app/api/drupal_local.py:632-641 | the flags pass exactly from 4.495, 2.995 and 6.995, because the ratio is rounded first |
| PaletteEndpoints.FlaggedThoughBelow | backend/app/api/drupal_local.py:632-641 | a concrete pair, `#959595` on `#ffffff`, has a ratio below 3 and is flagged as passing for large text |
| PaletteEndpoints.RoundedThreshold | backend/app/api/drupal_local.py:633 | when rounding half to even to two places reaches a threshold with an even last digit |
| PaletteEndpoints.ContrastMatrix | backend/app/api/drupal_local.py:732-740 | each unordered pair of positions once, in row order, and the summary flag is exactly that every pair reaches 2.995 |
| PaletteEndpoints.GenerateHarmony | backend/app/api/drupal_local.py:685-716 | exactly `count` valid colours: the seed, the rotations of its harmony, then the variants |
| PaletteEndpoints.EvenHarmonies | backend/app/api/drupal_local.py:690-701 | complementary, triadic and tetradic hues divide the wheel evenly |
| PaletteEndpoints.MirroredHarmonies | backend/app/api/drupal_local.py:690-701 | analogous and split-complementary hues lie on both sides, 30 and 60 degrees away |
| ToolStream.Stream.constructor | backend/app/api/messages.py:1016-1020 | the stream starts with the given history, no events, no model call |
| ToolStream.Stream.StreamTurn | backend/app/api/messages.py:1022-1044 | one model turn relays every text chunk as a token event in order and reports the last batch of tool calls |
| ToolStream.Stream.Relay | backend/app/api/messages.py:1033-1040 | tool-call chunks are not relayed and a later batch replaces an earlier one |
| ToolStream.Stream.HandleCall | backend/app/api/messages.py:1052-1184 | one tool call adds exactly what the policy gives it: its call event, its approval request where one is needed, its result, its execution and one tool message, or stops at a failure in between |
| ToolStream.Stream.HandleRound | backend/app/api/messages.py:1046-1184 | a complete round is the assistant message with its calls followed by one tool message per call, same names, same order; its events and executions are those of its calls one after the other, up to the first failure |
| ToolStream.Stream.Iterate | backend/app/api/messages.py:1022-1194 | one pass of the loop adds the turn and its round, and keeps the history the initial messages followed by complete rounds |
| ToolStream.Stream.Loop | backend/app/api/messages.py:1022-1194 | between one and ten model calls, exactly one in suggest mode, each seeing only complete rounds; every turn but the last asked for calls, and without a failure the loop ends only after ten turns, in suggest mode, or at a turn that asked for none; a failing turn is the last; the passes follow one another until one fails, asks for no calls, or the mode forbids going on |
| ToolStream.Stream.Finalize | backend/app/api/messages.py:1202-1353 | what is persisted is the whole relayed text, and the done event comes only after that |
| ToolStream.Stream.Report | backend/app/api/messages.py:1355-1393 | one error event; the user message is deleted only where the session factory is bound |
| ToolStream.Stream.Run | backend/app/api/messages.py:1016-1393 | over every behaviour of model, tools and approvals: a well-formed event sequence with exactly one ending; the loop ends as stated for it; every call that may run is among the executions with the arguments it was granted, no other is, the user is asked exactly where the mode demands it, and each result tells what happened; events, executions, text and model calls are the function of the world that the policy defines, ended by done exactly when neither loop nor epilogue fails; the text is persisted exactly when the loop ended well and the commit worked; the user message is deleted exactly on an httpx failure after a loop that ended well |
| ToolStream.Stream.Close | backend/app/api/messages.py:1196-1393 | the end of the generator: done or one error event, persistence and deletion, from how the loop ended |
| ToolStream.Answer | backend/app/api/messages.py:1016-1393 | a stream from its creation to its end: the relayed text is the concatenation of the texts of the turns made, it is what is persisted, and every call of a turn is announced with its own name and arguments if the loop went on after that turn or the text was persisted; turns, executions, results and ending as stated for the run |
| ToolStream.ScriptSays | backend/app/api/messages.py:1022-1194 | the script of a loop says the texts of its turns and announces their calls |
| ToolStream.PassesRelay | backend/app/api/messages.py:1022-1184 | a pass makes one model call, relays the text of its turn and announces the calls of a completed round |
| ToolStream.LoopText | backend/app/api/messages.py:1036-1040 | the relayed text is the concatenation of the texts of the turns made, in order |
| ToolStream.LoopAnnounces | backend/app/api/messages.py:1052-1073 | every call a turn asked for is readable and announced with its own name and arguments, whenever the loop went on after that turn or ended without an exception |
| ToolStream.RoundAnnounces | backend/app/api/messages.py:1052-1073 | within a completed round each call is announced under its own id |
| ToolStream.EarlyFailureKeepsMessage | backend/app/api/messages.py:1355-1364 | a model that cannot be reached on the first turn: the run ends in an error and the user message stays |
| ToolStream.CallProtocol | backend/app/api/messages.py:1063-1177 | the events of one call run the protocol automaton from idle to idle, or leave the call open on failure |
| ToolStream.CallAllowed | backend/app/api/messages.py:1075-1162 | what one call executes is allowed: never in suggest mode, unasked only for the safe tools in agent mode with the announced arguments, otherwise after approval of this very call with the arguments asked for or the user's modified ones |
| ToolStream.CallMeans | backend/app/api/messages.py:1052-1184 | one call in plain terms, mode by mode and answer by answer: what is announced, whether and with which arguments it executes, the result, the tool message and the failure |
| ToolStream.CallStaysTruthful | backend/app/api/messages.py:1052-1184 | adding a call keeps every event of the stream true of its executions |
| ToolStream.PendingIsLast | backend/app/api/messages.py:1033-1044 | the last batch of calls of a turn counts, whatever comes before it and whatever text follows |
| ToolStream.ExecutionsMean | backend/app/api/messages.py:1075-1162 | over a whole run every execution belongs to an announced call and was allowed, no call executes twice, and nothing executes in suggest mode |
| ToolStream.FreshMeans | backend/app/api/messages.py:1063-1073 | call ids of a run are distinct |
| ToolStream.OneResultPerCall | backend/app/api/messages.py:1063-1177 | each call event has exactly one result event with its id, after it and before the next call, except a call cut short by a failure, which has none |
| ToolStream.ResultAnswers | backend/app/api/messages.py:1088-1177 | each result event answers a call event |
| ToolStream.OneEnding | backend/app/api/messages.py:1352-1393 | a finished run ends with its only done or error event |
| ToolStream.TurnProtocol | backend/app/api/messages.py:1026-1040 | a turn emits token events only, and they spell its text |
| Automation.RunInv | backend/app/api/automation.py:206-298 | over every interleaving of the steps, claims stay exclusive and queued actions stay approved, queued once and marked executed |
| Automation.AtMostOneJob | backend/app/api/automation.py:231-254 | at most one job is ever queued for an action, and only after an approval of it |
| Automation.RollbackClearsOwnClaim | backend/app/api/automation.py:255-263 | a pending rollback owns the only claim on its action, nothing was queued for it, and afterwards the action can be executed again |
| Automation.RefusedEnqueue | backend/app/api/automation.py:238-263 | after any honest run a refused enqueue leaves the request rolling back its own claim and queues nothing, and the rollback makes the action executable again and changes no other row |
| Automation.RefusedEnqueueRun | backend/app/api/automation.py:238-263 | such a run exists |
| Automation.TakenEnqueue | backend/app/api/automation.py:202-270 | an undisturbed request for an approved, unmarked action marks it and queues one job for it |
| Automation.NoJobExecutes | backend/app/worker.py:659-673 | with a truthful queue no queued job ever executes: the worker finds the row gone or already marked |
| Automation.LostReplyBreaksBoth | backend/app/api/automation.py:251-263 | after any honest run in which a request claims an existing row, losing the enqueue's reply leads to two jobs of the action and an execution |
| Automation.LostReplyRun | backend/app/api/automation.py:251-263 | such a run exists |
| Automation.LostReplyExecutes | backend/app/api/automation.py:255-263 | after any honest run in which a request claims an existing row, a lost reply, the rollback and a worker lead to an execution, with the row executable again |
| Automation.ApprovedByStep | backend/app/api/automation.py:191-195 | an action counts as approved only through an approve step |
| Automation.ActionService.ApproveAction | backend/app/api/automation.py:181-198 | approving sets the flag, replaces the data only when given, and answers 404 for a missing row |
| Automation.ActionService.BeginExecute | backend/app/api/automation.py:210-229 | the checks before the claim: missing, not approved, already executed |
| Automation.ActionService.ClaimExecution | backend/app/api/automation.py:231-247 | the conditional update succeeds exactly when the request then holds the claim |
| Automation.ActionService.EnqueueJob | backend/app/api/automation.py:249-267 | a taken job is queued and ends the request; a refused one leads to the rollback and a server error |
| Automation.ActionService.ExecuteAction | backend/app/api/automation.py:187-274 | an undisturbed execute request: 404, 400, success or 500 exactly by row, approval, mark and queue; success marks the row and queues one job, every other answer changes nothing |
| Automation.ActionService.RollBack | backend/app/api/automation.py:257-263 | the rollback clears `executed_at` whoever set it |
| Automation.ActionService.DeleteAction | backend/app/api/automation.py:283-298 | deletion removes the row and nothing else |
| Automation.ActionService.StartJob | backend/app/worker.py:659-673 | a worker executes exactly when the row exists, is approved and is not marked |
| Embedding.Source.GenerateEmbeddings | backend/app/worker.py:133-241 | a run is a function of its world: it commits exactly the whole batches before the first that is not answered in full and committed, each chunk with the vector its own batch answered, recomputes nothing, succeeds exactly when every batch and commit does, and reports the committed chunks plus the overcount of the bad batch |
| Embedding.Source.Process | backend/app/worker.py:165-218 | the body of the job: it raises exactly when a batch or a commit fails |
| Embedding.Source.ProcessBatch | backend/app/worker.py:191-201 | a batch is stored completely or not at all, and only when the service answered one vector per chunk |
| Embedding.OvercountsWhen | backend/app/worker.py:195-201 | the report counts chunks that were not committed if and only if the batch that stopped the run had answered a vector; never more than one batch |
| Embedding.OvercountExample | backend/app/worker.py:195-201 | a run that stores nothing and reports three chunks |
| Embedding.FirstBadMeans | backend/app/worker.py:191-201 | every batch before the first bad one is answered in full and committed |
| Embedding.HealthyMeans | backend/app/worker.py:185-218 | a run is healthy if and only if every commit works and every batch of ten, the last perhaps shorter, is answered with one vector per chunk |
| Embedding.RunAll | backend/app/worker.py:133-241 | over any sequence of runs the committed embeddings are a prefix of those that were missing, run by run what each world gives, and a healthy last run completes the source |
| Embedding.MissingMeans | backend/app/worker.py:169-177 | the fetched chunks are exactly those without an embedding |
| Embedding.FillFirst | backend/app/worker.py:197-201 | storing the first missing chunk removes it from the missing ones and moves no other |
| BulkIngest.Batch.constructor | backend/app/api/kb.py:728-746 | the record starts with zero counters and the number of files |
| BulkIngest.Batch.Ingest | backend/app/worker.py:1624-1857 | every published version has completed plus failed equal to the number of statuses, chunk counters equal to the sum over completed files, and the statuses of the first files in order; the job succeeds if and only if the record is found, the first status is taken, the preparation works, no listing raises, the store takes every publication and nothing behind the last one fails; the status left is the last one the store took: the verdict of the final publication, failed where the handler's own write works, processing, or the one before; the final publication accounts for all files and their chunks even if something behind it fails; a loop that stops leaves the version of the last file that published, or what an earlier run left, and the chunks of every file up to and including the one that stopped it |
| BulkIngest.Batch.IngestAll | backend/app/worker.py:1667-1839 | the loop, the final publication and what follows it |
| BulkIngest.CountedIsStored | backend/app/worker.py:1788-1807 | the chunk counter of a version is the number of chunks its files stored |
| BulkIngest.Batch.IngestFile | backend/app/worker.py:1673-1816 | one pass of the loop stops exactly at a raising listing or a refused publication |
| BulkIngest.Batch.HandleFile | backend/app/worker.py:1673-1807 | each file gets the status its outcome calls for, with the counters moved accordingly, and only some outcomes publish |
| BulkIngest.EmbedChunks | backend/app/worker.py:1775-1786 | the loop raises exactly when some batch is not answered in full, and otherwise counts every chunk |
| BulkIngest.Push | backend/app/worker.py:1792-1807 | appending a status with its counter updates keeps the record conserved |
| LikeEscape.SearchIsSubstring | backend/app/api/admin.py:443-451 | the escaped search pattern matches a text under LIKE with a backslash escape if and only if the term occurs in it, up to case folding |
| LikeEscape.EscapeIsPerCharacter | backend/app/api/admin.py:407-409 | the three ordered replacements equal one escape per character |
| LikeEscape.EscapedPrefix | backend/app/api/help.py:90-92 | an escaped term followed by `%` matches exactly the texts that start with the term |
| LikeEscape.PatternWellFormed | backend/app/api/help.py:380-388 | a search pattern never ends inside an escape, for any term |
| LikeEscape.PercentSkips | backend/app/api/admin.py:443-451 | a leading `%` matches any prefix, the reference meaning of the matcher |
| LikeEscape.BackslashLastIsWrong | backend/app/api/admin.py:407-409 | replacing backslashes last would escape the escapes, so the order matters |
| Utf8.DecodeEncode | backend/app/api/context.py:266-270 | decoding with replacement undoes encoding on every text |
| Utf8.EncodedShape | backend/app/api/context.py:266-268 | the encoding is UTF-8: lengths, marks of the bytes and the digits they carry |
| Utf8.PrefixLength | backend/app/api/context.py:271-272 | the decoded length of a byte prefix, cut anywhere, is the number of characters whose first byte is in it |
| Utf8.StartedBeforeIsCount | backend/app/api/context.py:271-272 | that number counts exactly the characters that start before the cut |
| TokenSpans.TokenizeWithSpans | backend/app/kernel/token_counter.py:108-120 | the byte spans are the running sums of the token lengths, so they tile the bytes |
| TokenSpans.TokenizeText | backend/app/api/context.py:261-284 | the character spans tile the text, a character belongs to the token holding its first byte, and a token cut between characters is reported with its own slice |
| TokenSpans.OneSpanPerCharacter | backend/app/api/context.py:269-273 | each character of the text lies in exactly one span |
| TokenSpans.AlignedToken | backend/app/api/context.py:270-273 | a token that starts and ends between characters decodes to its slice of the text |
| SegmentScan.ExtractJsonObjects | backend/scripts/migrate_weaviate_to_pgvector.py:69-111 | the objects are the candidates that parse, in order, of a scan in which each try is the first start at or behind where the scan resumed, ending when no start is left: taken up to its first balancing brace within the limit, abandoned for its length, or open to the end of the text |
| SegmentScan.ScanObject | backend/scripts/migrate_weaviate_to_pgvector.py:87-107 | the inner scan decides which of the three a start is |
| SegmentScan.ScanUnique | backend/scripts/migrate_weaviate_to_pgvector.py:80-109 | the scan of a text is determined by the text |
| SegmentScan.NeverTried | backend/scripts/migrate_weaviate_to_pgvector.py:80-109 | a start is never tried if and only if it lies inside a candidate or within 100001 characters behind an abandoned start; nothing behind a start that stays open to the end is jumped over |
| SegmentScan.TriesDisjoint | backend/scripts/migrate_weaviate_to_pgvector.py:80-109 | what a try covers lies before every later try, so candidates are disjoint and in order |
| SegmentScan.ShortestBalanced | backend/scripts/migrate_weaviate_to_pgvector.py:91-96 | the text of a candidate has balanced braces, and no shorter text from the same start has |
| SegmentScan.ShadowedIsMissed | backend/scripts/migrate_weaviate_to_pgvector.py:104-109 | an object right behind an unclosed brace is never tried, and nothing of such a text is kept |
| SegmentScan.ShadowedExists | backend/scripts/migrate_weaviate_to_pgvector.py:104-109 | such a text exists |
| SegmentScan.FindWindows | backend/scripts/migrate_weaviate_to_pgvector.py:114-143 | the accepted windows are plausible, aligned and disjoint, and every aligned offset with a full window is inside one or was rejected |
| SegmentScan.TakeWindow | backend/scripts/migrate_weaviate_to_pgvector.py:127-138 | accepting a window and jumping over it keeps the scan's bookkeeping |
| SafePath.SanitizeMeans | backend/app/api/drupal_local.py:104-123 | each verdict exactly: traversal when the walk the path describes leaves the mount or a backslash hides a `..`; otherwise control characters when a name holds one, and invalid when no name remains and the forwarded text is at most one character; an accepted path leads where the given one does with backslashes as separators |
| SafePath.AcceptedStaysInside | backend/app/api/drupal_local.py:104-123 | an accepted path is nonempty, relative, free of `..` and control characters, and no step of walking it leaves the mount |
| SafePath.SanitizePlain | backend/app/api/drupal_local.py:104-123 | without backslashes the verdict is a function of where the path leads, and an accepted path is the join of the names on the way |
| SafePath.SanitizeTwice | backend/app/api/drupal_local.py:104-123 | sanitising an accepted path changes nothing if and only if it has no empty and no `.` component |
| SafePath.HiddenDot | backend/app/api/drupal_local.py:106-117 | a concrete accepted path that leads to the mount itself |
| SafePath.AcceptsMount | backend/app/api/drupal_local.py:104-123 | an accepted path leads to the mount itself if and only if the given one stays inside, has no name left once backslashes separate, and its forwarded text is longer than one character |
| FileTree.BuildTree | backend/app/api/drupal_local.py:132-170 | the listing is the tree of the shown entries in order, and the total is the number of its nodes |
| FileTree.NodesOfConcat | backend/app/api/drupal_local.py:142-168 | siblings stand in the order of their entries |
| FileTree.TreeSound | backend/app/api/drupal_local.py:142-168 | every node stands for an entry below the directory reached through readable, unskipped directories, its path being the join of the names on the way |
| FileTree.TreeComplete | backend/app/api/drupal_local.py:142-168 | every such entry has a node |
| FileTree.ListingOpens | backend/app/api/drupal_local.py:216-225 | every path in the listing of a sanitised directory stands for an entry of the mount, and sanitised in turn it is accepted and leads to that entry if and only if no name on the way from the directory holds a backslash or a control character |
| FileTree.OpensIff | backend/app/api/drupal_local.py:104-145 | the same for any prefix that opens and any names a directory can hold |
| FileTree.BackslashNameIsLost | backend/app/api/drupal_local.py:104-145 | a name of two portable names joined by a backslash is listed under a path that leads to the second in a directory called like the first |
| FileTree.BackslashExample | backend/app/api/drupal_local.py:145-168 | the file `a\b` at the top of a listing does not open |
| FileTree.OpensUnder | backend/app/api/drupal_local.py:145 | appending a portable name to a path appends it to where the sanitised path leads |
| AuditExport.StreamJson | backend/app/api/admin.py:757-784 | the JSON export holds exactly the first `limit` rows, once each, in order, separated by commas |
| AuditExport.StreamCsv | backend/app/api/admin.py:790-827 | the CSV export is the header and exactly the same rows |
| HelpSearch.ExpandQueryTerms | backend/app/api/help.py:95-113 | the terms are the alphanumeric runs of the lowered query and their synonyms without repeats, in order of first occurrence, at most twenty; without runs the stripped, lowered query |
| HelpSearch.TokensAreParts | backend/app/api/help.py:97 | the runs are the nonempty parts of the text between its other characters |
| HelpSearch.FirstsMeans | backend/app/api/help.py:98-108 | removing repeats loses no term and leaves none twice |
| HelpSearch.FirstsPrefix | backend/app/api/help.py:98-108 | terms keep the order of their first occurrence |
| HelpSearch.RelatedPush | backend/app/api/help.py:98-108 | each token is followed by its synonyms |
| HelpScore.LexicalScore | backend/app/api/help.py:116-144 | the loops compute the score, in 0..1 by its clamp, for every arithmetic |
| HelpScore.PerfectShare | backend/app/api/help.py:116-144 | over the reals, the reference the computed score is measured against: the share of attainable points is in 0..1, and 1 if and only if there is a term or a query, every term is in title, body and tags, and the query in title and body |
| HelpScore.PointsOfTerms | backend/app/api/help.py:129-136 | a term earns 1.8 in the title, 0.8 in the body and 0.4 in the tags, and terms add up |
| HelpScore.PointsOfQuery | backend/app/api/help.py:138-143 | the query earns 1.5 in the title and 0.5 in the body |
| HelpScore.ScoreIsClose | backend/app/api/help.py:116-144 | for every arithmetic whose operations are off by e at most, the computed score of at most twenty terms is within 2e of the exact share |
| HelpScore.PerfectScore | backend/app/api/help.py:116-144 | the computed score is at least 1 - 2e if and only if everything is found everywhere |
| Binary64.MachineIsAccurate | backend/app/api/help.py:116-144 | binary64 is such an arithmetic, with e = 2^-45 |
| Binary64.FourTermsExceed | backend/app/api/help.py:129-144 | in binary64, four terms found everywhere score more than 1 before the clamp |
| Binary64.TwelveTermsFallShort | backend/app/api/help.py:129-144 | and twelve score less than 1, though everything is found everywhere |
| HelpSearch.MergeBoth | backend/app/api/help.py:434-449 | every topic found by either search once, with the blended score its origin gives it |
| HelpSearch.BlendWeights | backend/app/api/help.py:434-449 | over the reals, similarity and text count 0.7 to 0.3 for a topic both searches found, 0.85 to 0.15 for one only the similarity search found, and the text alone otherwise |
| HelpSearch.MergedNearUnit | backend/app/api/help.py:434-449 | which is between 0 and 1 plus the rounding of the blend |
| HelpSearch.RankingMeans | backend/app/api/help.py:473-494 | results are distinct topics with similarities in 0..1, out of order by at most 0.02 and the rounding of one sum, and only where the later topic has the feedback bonus and the earlier has not |
| HelpSearch.BonusMeans | backend/app/api/help.py:480-484 | helpful feedback adds 0.02, up to 1, and only it does |
| HelpSearch.TiesInOrder | backend/app/api/help.py:473-476 | topics of equal score stand in the order of their sections, then of their titles |
| HelpSearch.NothingBetterLeftOut | backend/app/api/help.py:473-476 | a candidate left out scores no more than any topic shown |
| HelpSearch.SearchHelp | backend/app/api/help.py:431-494 | the merged candidates, or the strict pass when neither search found anything, cut to the best `top_k` |
| Sorting.SortSorts | backend/app/api/help.py:473-476 | the sort the rankings rely on orders its result |
| Sorting.SortedUnique | backend/app/worker.py:1070 | under an antisymmetric order a multiset has one sorted arrangement, which makes the sorted query canonical |
| Sorting.StringLeMeans | backend/app/worker.py:1070 | the order on texts is decided by the first difference, and a prefix comes first |

## Left out

- CrawlUrl.NormalizeIdempotent: assumes that lower-casing does not turn a network location the parser accepts into one it refuses; which locations the parser refuses is a parameter.
- CrawlUrl.NormalFormCanonical: folds ASCII letters only; Unicode case folding of network locations and query keys is not part of this model.
- Crawler.Crawl: between the two bounds on raising, for a page at the distance where the page cap runs out, whether the crawl raises is not stated in terms of the order of the links.
- Mirroring.ImportWebsite: the container, the browser runtime, the project record and its messages, the type detection and the dependency installation are not modelled, and neither are the failures they add.
- Mirroring.WritePages: `metadata.json` and the design documents are not modelled; a failing write to disk is not either.
- Embedding.Source.GenerateEmbeddings: a missing source row and a run interrupted without an exception are not modelled.
- BulkIngest.Batch.Ingest: a retry after the uploaded files of an earlier run were removed sees them as missing files; the removal itself is not modelled, and neither is a store that takes a write and then reports a failure.
- Palette.AdjustLightnessForAA: luminance, contrast and the comparisons with the requested ratio are over the reals; rounding is modelled where it decides a channel, as any error of less than one channel.
- Colors.HlsRoundTrip: exact reals; what a machine computes is bounded against it in `Palette`.
- PaletteEndpoints.GenerateHarmony: the turned hue and the clamped variant values are computed over the reals from the computed hue, saturation and lightness.
- PaletteEndpoints.FlagThresholds: the ratio is a real number, rounded half to even to two places.
- Palette.HslHexRoundTrip: which colours keep all channels in binary64 is characterised by the computed components, not by the colour.
- TokenSpans.TokenizeText: the tokenizer refuses texts that spell a special token; such an exception is not modelled.
- ToolStream.FreshMeans: call ids come from a counter, so that `uuid4` never repeats a value is assumed.
- SafePath.SanitizeMeans: symbolic links below the mount are not modelled.
- FileTree.BuildTree: each directory carries its entries in the order of `sorted(os.listdir(..))`; entries that change during the walk and symbolic links are not modelled.
- HelpSearch.ExpandQueryTerms: the synonym table is an argument, and lower-casing is that of ASCII.
- HelpSearch.SearchHelp: the database queries, the feedback counts and the similarity values are inputs; the merge takes the lexical score as a function that `HelpScore.LexicalScore` computes; the whole is stated for every arithmetic of a stated error.
- AuditExport.StreamJson: rows are rendered by a parameter, and the row order is fixed while the export reads it page by page.
- Network, browser, Docker, SSH, Redis and database calls are oracles; a failed commit leaves no change.
- HTML, title, font and colour extraction by regular expressions: a page comes with its anchors, its attribute URLs and its text already cut into pieces.
- File naming (SHA-1, buckets, document directories): a page or asset carries the file it is saved to.
- The power 2.4 itself: any function that satisfies `y^5 = x^12` on nonnegative numbers stands for it.
- The tool registry, the approval wait, the context manager, auto-titles, plan blocks and compaction after a stream: only that they may fail.
- Palette generation by a language model, CSS and SCSS output, and colour roles.
- The deduplication loop and the database writes of the migration script.
- Login lockout, authentication, CRUD endpoints, proxies, health checks and migrations.
- `MAX_FILE_SIZE`, language detection and the file endpoints that read and write contents.
