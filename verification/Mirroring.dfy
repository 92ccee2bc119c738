/**
 Writing the mirror: links of every rendered page are rewritten against the local map, pages and
 assets become files, and the import job judges the result by the page count.  HTML is a list of
 text and attribute pieces, the attributes being those the rewriting pattern matches.
 */
module Mirroring {
  import opened CrawlUrl
  import opened SiteGraph
  import opened Options
  import opened Crawler

  // ---------- rewriting one page ----------

  predicate StartsWith(s: string, prefix: string) {
    prefix <= s
  }

  predicate Exempt(url: string) {
    || StartsWith(url, "mailto:") || StartsWith(url, "tel:") || StartsWith(url, "javascript:")
    || StartsWith(url, "data:") || StartsWith(url, "#")
  }

  /** The replacement callback; None where normalising the joined URL raises. */
  function RewritePiece(p: Piece, localMap: map<string, string>): Option<Piece> {
    if p.Text? || Exempt(p.url) then Some(p)
    else match p.target
      case Raises => None
      case NotCrawlable => Some(p)
      case Url(normalized) =>
        if normalized !in localMap || localMap[normalized] == "" then Some(p)
        else Some(Attr(p.name, "=", p.quote, "/" + localMap[normalized], p.target))
  }

  function RewriteLinks(html: seq<Piece>, localMap: map<string, string>): Option<seq<Piece>> {
    if html == [] then Some([])
    else
      match (RewritePiece(html[0], localMap), RewriteLinks(html[1..], localMap))
      case (Some(p), Some(rest)) => Some([p] + rest)
      case _ => None
  }

  /** The file an attribute leads to in the mirror, if it leads to one. */
  function LocalTarget(p: Piece, localMap: map<string, string>): Option<string> {
    if p.Attr? && !Exempt(p.url) && p.target.Url? && p.target.text in localMap && localMap[p.target.text] != ""
    then Some(localMap[p.target.text]) else None
  }

  /** Exactly the attributes with a local target change, and they change to that target. */
  ghost predicate Rewritten(before: seq<Piece>, after: seq<Piece>, localMap: map<string, string>) {
    |after| == |before| && forall k :: 0 <= k < |before| ==>
      match LocalTarget(before[k], localMap)
      case None => after[k] == before[k]
      case Some(file) => after[k] == before[k].(gap := "=", url := "/" + file)
  }

  lemma {:induction false} RewriteMeaning(html: seq<Piece>, localMap: map<string, string>)
    ensures var r := RewriteLinks(html, localMap);
            r.Some? ==> Rewritten(html, r.value, localMap)
  {
    if html != [] && RewriteLinks(html, localMap).Some? {
      RewriteMeaning(html[1..], localMap);
      var rest := RewriteLinks(html[1..], localMap).value;
      forall k | 0 < k < |html|
        ensures RewriteLinks(html, localMap).value[k] == rest[k - 1] && html[k] == html[1..][k - 1]
      {
      }
    }
  }

  /** The pass fails exactly on an attribute whose joined URL the parser refuses. */
  predicate RaisingPiece(p: Piece) {
    p.Attr? && !Exempt(p.url) && p.target.Raises?
  }

  lemma {:induction false} RewriteFails(html: seq<Piece>, localMap: map<string, string>)
    ensures RewriteLinks(html, localMap).None? <==> exists p :: p in html && RaisingPiece(p)
  {
    if html != [] {
      RewriteFails(html[1..], localMap);
      assert RewritePiece(html[0], localMap).None? <==> RaisingPiece(html[0]);
      if exists p :: p in html[1..] && RaisingPiece(p) {
        var p :| p in html[1..] && RaisingPiece(p);
        assert p in html;
      }
      if exists p :: p in html && RaisingPiece(p) {
        var p :| p in html && RaisingPiece(p);
        assert p == html[0] || p in html[1..];
      }
    }
  }

  function RenderPiece(p: Piece): string {
    match p
    case Text(t) => t
    case Attr(name, gap, quote, url, _) => name + gap + [quote] + url + [quote]
  }

  function Render(html: seq<Piece>): string {
    if html == [] then "" else RenderPiece(html[0]) + Render(html[1..])
  }

  // ---------- the files of the mirror ----------

  datatype File = AssetFile(url: string) | PageFile(url: string, html: string)

  function AssetFiles(assets: seq<Asset>): map<string, File> {
    if assets == [] then map[]
    else
      var a := assets[|assets| - 1];
      AssetFiles(assets[..|assets| - 1])[a.file := AssetFile(a.url)]
  }

  lemma {:induction false} AssetFilesPresent(assets: seq<Asset>)
    ensures forall i :: 0 <= i < |assets| ==> assets[i].file in AssetFiles(assets)
  {
    if assets != [] {
      AssetFilesPresent(assets[..|assets| - 1]);
      forall i | 0 <= i < |assets|
        ensures assets[i].file in AssetFiles(assets)
      {
        assert i < |assets| - 1 ==> assets[..|assets| - 1][i] == assets[i];
      }
    }
  }

  /** The file of record `i` holds its rewritten page. */
  ghost predicate Current(m: Mirror, i: nat, files: map<string, File>) {
    i < |m.records| && m.records[i].file in files &&
    match RewriteLinks(m.records[i].html, m.localMap)
    case None => false
    case Some(page) => files[m.records[i].file] == PageFile(m.records[i].url, Render(page))
  }

  /** A later record, before `n`, is saved under the same document path. */
  ghost predicate Replaced(m: Mirror, i: nat, n: nat) {
    i < n <= |m.records| && exists j :: i < j < n && m.records[j].file == m.records[i].file
  }

  /** Each of the first `n` records has its file, with its own page exactly if no later one is saved there. */
  ghost predicate PagesWritten(m: Mirror, n: nat, files: map<string, File>) {
    n <= |m.records| && forall i :: 0 <= i < n ==>
      m.records[i].file in files && (Current(m, i, files) <==> !Replaced(m, i, n))
  }

  ghost predicate DistinctRecords(records: seq<Record>) {
    forall i, j :: 0 <= i < j < |records| ==> records[i].url != records[j].url
  }

  ghost predicate AssetsPresent(m: Mirror, files: map<string, File>) {
    forall i :: 0 <= i < |m.assets| ==> m.assets[i].file in files
  }

  /** Every link the rewriter changed names a file of the mirror. */
  ghost predicate LinksClosed(m: Mirror, files: map<string, File>) {
    forall i, p :: 0 <= i < |m.records| && p in m.records[i].html && LocalTarget(p, m.localMap).Some? ==>
      LocalTarget(p, m.localMap).value in files
  }

  /** Writes every recorded page after the crawl; None when a rewritten link makes the parser raise. */
  method WritePages(m: Mirror) returns (files: Option<map<string, File>>)
    requires MapOk(m.localMap, m.records, m.assets) && DistinctRecords(m.records)
    ensures files.None? <==> exists i :: 0 <= i < |m.records| && RewriteLinks(m.records[i].html, m.localMap).None?
    ensures files.Some? ==> PagesWritten(m, |m.records|, files.value) && AssetsPresent(m, files.value)
    ensures files.Some? ==> LinksClosed(m, files.value)
  {
    var written := AssetFiles(m.assets);
    AssetFilesPresent(m.assets);
    for n := 0 to |m.records|
      invariant AssetsPresent(m, written) && PagesWritten(m, n, written)
      invariant forall i :: 0 <= i < n ==> RewriteLinks(m.records[i].html, m.localMap).Some?
    {
      var record := m.records[n];
      var page := RewriteLinks(record.html, m.localMap);
      if page.None? {
        return None;
      }
      WritePage(m, n, written, page.value);
      written := written[record.file := PageFile(record.url, Render(page.value))];
    }
    files := Some(written);
    MappedFilesPresent(m, written);
  }

  lemma WritePage(m: Mirror, n: nat, files: map<string, File>, page: seq<Piece>)
    requires n < |m.records| && PagesWritten(m, n, files) && DistinctRecords(m.records)
    requires RewriteLinks(m.records[n].html, m.localMap) == Some(page)
    ensures var r := m.records[n];
      PagesWritten(m, n + 1, files[r.file := PageFile(r.url, Render(page))])
  {
    var r := m.records[n];
    var files' := files[r.file := PageFile(r.url, Render(page))];
    forall i | 0 <= i < n + 1
      ensures m.records[i].file in files' && (Current(m, i, files') <==> !Replaced(m, i, n + 1))
    {
      if i < n {
        assert m.records[i].url != r.url;
        assert Replaced(m, i, n + 1) <==> Replaced(m, i, n) || m.records[i].file == r.file;
      }
    }
  }

  lemma MappedFilesPresent(m: Mirror, files: map<string, File>)
    requires MapOk(m.localMap, m.records, m.assets)
    requires forall i :: 0 <= i < |m.assets| ==> m.assets[i].file in files
    requires forall i :: 0 <= i < |m.records| ==> m.records[i].file in files
    ensures forall u :: u in m.localMap ==> m.localMap[u] in files
  {
  }

  // ---------- the import job ----------

  function Clamp(x: int, low: int, high: int): int {
    if x < low then low else if x > high then high else x
  }

  /** A finished mirror: a breadth-first crawl within the budgets, on disk with closed links. */
  ghost predicate Mirrored(site: Site, start: string, limits: Limits, m: Mirror, files: map<string, File>) {
    && BreadthFirst(site, start, limits, m) && RecordsOk(site, m.visited, m.records)
    && (exists order :: VisitsInOrder(site, start, limits, m, order))
    && AssetsOk(site, limits, m.assets, m.assetBytes)
    && AssetsCollected(site, limits, m.records, m.assets, m.assetBytes)
    && PagesWritten(m, |m.records|, files) && AssetsPresent(m, files) && LinksClosed(m, files)
  }

  /** _render_site_to_directory: the crawl and the writing; it returns the counts of visited pages and of assets. */
  method RenderSite(site: Site, start: string, limits: Limits)
    returns (counts: Option<(nat, nat)>, ghost m: Mirror, ghost files: map<string, File>)
    ensures counts.Some? ==> Mirrored(site, start, limits, m, files) && counts.value == (|m.visited|, |m.assets|)
    // it raises only for a page with a refused link that the cap lets it get to, and always for one within the cap in
    // any order; no visited page of a finished mirror has one
    ensures counts.None? ==> MayFail(site, start, limits)
    ensures MustFail(site, start, limits) ==> counts.None?
    ensures counts.Some? ==> forall u :: u in m.visited ==> !RaisingPage(site, start, limits, u)
    // so where the page cap does not bind it raises exactly when some page within reach has one
    ensures CapLoose(site, start, limits) ==> (counts.None? <==> AnyRaising(site, start, limits))
  {
    var r;
    ghost var depthOf, order;
    r, depthOf, order := Crawl(site, start, limits);
    m, files := Mirror({}, [], [], map[], [], 0), map[];
    if r.None? {
      CrawlFails(site, start, limits);
      MayIsAny(site, start, limits);
      return None, m, files;
    }
    m := r.value;
    var written := WritePages(r.value);
    if written.None? {
      WritingFails(site, start, limits, m);
      MayIsAny(site, start, limits);
      return None, m, files;
    }
    WritingWorks(site, start, limits, m);
    NoneRaises(site, start, limits, m);
    files := written.value;
    counts := Some((|r.value.visited|, |r.value.assets|));
  }

  datatype Outcome = Failed | Imported(pageCount: nat, assetCount: nat)

  /**
   The mirroring part of import_website_project_task: depth clamped to 1..5, pages to 1..200, and a
   page count of zero rejected.  `sameHost(start)` holds there, because the host is taken from `start`.
   Failures of the container, the browser, the disk and the database around it are not modelled.
   */
  method ImportWebsite(site: Site, start: string, depth: int, pages: int, limits0: Limits)
    returns (outcome: Outcome, ghost m: Mirror, ghost files: map<string, File>)
    requires site.sameHost(start)
    // the reported counts are those of a finished mirror
    ensures outcome.Imported? ==>
      Mirrored(site, start, Capped(limits0, depth, pages), m, files) && outcome == Imported(|m.visited|, |m.assets|)
    ensures outcome.Imported? ==> 1 <= outcome.pageCount <= 200 && |m.records| <= outcome.pageCount
    // a page with a refused link is the only reason to fail here: one the cap lets the crawl get to; one within the
    // cap always fails, the start page among them, and where the page cap does not bind, any does
    ensures outcome.Failed? ==> MayFail(site, start, Capped(limits0, depth, pages))
    ensures MustFail(site, start, Capped(limits0, depth, pages)) ==> outcome.Failed?
    ensures RaisingPage(site, start, Capped(limits0, depth, pages), start) ==> outcome.Failed?
    ensures CapLoose(site, start, Capped(limits0, depth, pages)) ==>
      (outcome.Failed? <==> AnyRaising(site, start, Capped(limits0, depth, pages)))
    // and a site whose start page does not render is imported all the same, with a page count of one
    ensures site.fetch(start).None? ==> outcome == Imported(1, 0) && m.records == []
  {
    var limits := Capped(limits0, depth, pages);
    var counts;
    counts, m, files := RenderSite(site, start, limits);
    if site.fetch(start).None? {
      DeadStart(site, start, Horizon(limits));
    }
    if counts.None? {
      return Failed, m, files;
    }
    StartVisited(site, start, limits, m);
    RenderedCount(site, m);
    if counts.value.0 == 0 {
      assert false;
    }
    if site.fetch(start).None? {
      DeadMirror(site, start, limits, m);
    }
    outcome := Imported(counts.value.0, counts.value.1);
  }

  ghost predicate AnyRaising(site: Site, start: string, limits: Limits) {
    exists u :: RaisingPage(site, start, limits, u)
  }

  /** A raising page at a distance where every page within it fits the page cap. */
  ghost predicate MustFail(site: Site, start: string, limits: Limits) {
    exists u, d :: RaisesAt(site, start, limits, u, d) && |PagesWithin(site, start, d)| <= limits.maxPages
  }

  /** A raising page at a distance the crawl can get to before the page cap is used up. */
  ghost predicate MayFail(site: Site, start: string, limits: Limits) {
    exists u, d :: RaisesAt(site, start, limits, u, d) && |PagesCloser(site, start, d)| < limits.maxPages
  }

  lemma CrawlFails(site: Site, start: string, limits: Limits)
    requires MayRaise(site, start, limits)
    ensures MayFail(site, start, limits)
  {
    var u, d :| Wanted(site, start, limits, u) && MalformedAt(site, start, limits, u, d)
      && |PagesCloser(site, start, d)| < limits.maxPages;
    assert RaisesAt(site, start, limits, u, d);
  }

  lemma MayIsAny(site: Site, start: string, limits: Limits)
    requires MayFail(site, start, limits)
    ensures AnyRaising(site, start, limits)
  {
    var u, d :| RaisesAt(site, start, limits, u, d) && |PagesCloser(site, start, d)| < limits.maxPages;
    assert RaisingPage(site, start, limits, u);
  }

  lemma WritingFails(site: Site, start: string, limits: Limits, m: Mirror)
    requires BreadthFirst(site, start, limits, m) && RecordsOk(site, m.visited, m.records)
    requires exists i :: 0 <= i < |m.records| && RewriteLinks(m.records[i].html, m.localMap).None?
    ensures MayFail(site, start, limits)
  {
    var i :| 0 <= i < |m.records| && RewriteLinks(m.records[i].html, m.localMap).None?;
    var u := m.records[i].url;
    RewriteFails(m.records[i].html, m.localMap);
    assert Wanted(site, start, limits, u);
    ReachHasDistance(site, start, u, Horizon(limits));
    var d :| 0 <= d <= Horizon(limits) && Distance(site, start, u, d);
    VisitedIsEarly(site, start, limits, m, u, d);
    assert RaisesAt(site, start, limits, u, d);
  }

  /** When every page was rewritten, no visited page raises. */
  lemma WritingWorks(site: Site, start: string, limits: Limits, m: Mirror)
    requires BreadthFirst(site, start, limits, m) && RecordsOk(site, m.visited, m.records)
    requires NoneMalformed(site, start, limits, m.visited)
    requires forall i :: 0 <= i < |m.records| ==> RewriteLinks(m.records[i].html, m.localMap).Some?
    ensures forall u :: u in m.visited ==> !RaisingPage(site, start, limits, u)
  {
    forall u | u in m.visited
      ensures !RaisingPage(site, start, limits, u)
    {
      if RaisingPage(site, start, limits, u) {
        var d :| RaisesAt(site, start, limits, u, d);
        assert !MalformedAt(site, start, limits, u, d);
        var i :| 0 <= i < |m.records| && m.records[i].url == u;
        RewriteFails(m.records[i].html, m.localMap);
        assert false;
      }
    }
  }

  /** So no page that fits the cap raises, and under a loose cap none does. */
  lemma NoneRaises(site: Site, start: string, limits: Limits, m: Mirror)
    requires BreadthFirst(site, start, limits, m)
    requires forall u :: u in m.visited ==> !RaisingPage(site, start, limits, u)
    ensures !MustFail(site, start, limits)
    ensures CapLoose(site, start, limits) ==> !AnyRaising(site, start, limits)
  {
    forall u, d | RaisesAt(site, start, limits, u, d)
      ensures |PagesWithin(site, start, d)| > limits.maxPages && !CapLoose(site, start, limits)
    {
      if |PagesWithin(site, start, d)| <= limits.maxPages {
        FittingIsVisited(site, start, limits, m, u, d);
        assert RaisingPage(site, start, limits, u);
        assert false;
      }
      if CapLoose(site, start, limits) {
        LooseFits(site, start, limits, u, d);
        assert false;
      }
    }
  }

  /** One page with a link to `http://[`: under any limits the import meets a raising page, its start page. */
  lemma RefusedLinkSite(limits: Limits, depth: int, pages: int, bad: string -> bool)
    returns (site: Site, start: string, link: string)
    requires RefusesUnbalanced(bad)
    ensures site.sameHost(start) && RaisingPage(site, start, Capped(limits, depth, pages), start)
    ensures site.fetch(start).Some? && site.fetch(start).value.anchors == [NormalizeCrawlUrl(link, bad)]
    ensures link == "http://["
  {
    start := "http://h/";
    link := OpenBracketIsRefused(bad);
    var target := NormalizeCrawlUrl(link, bad);
    site := RefusingSite(target, Capped(limits, depth, pages), start);
  }

  lemma RefusingSite(target: Normalized, limits: Limits, start: string) returns (site: Site)
    requires target == Raises && limits.maxDepth >= 1
    ensures site.sameHost(start) && RaisingPage(site, start, limits, start)
    ensures site.fetch(start).Some? && site.fetch(start).value.anchors == [target]
  {
    var page := Page([target], [], [], "documents/home/document.html");
    site := Site(u => true, u => Some(page));
    ReachMonotone(site, start, 0, Horizon(limits));
    assert Distance(site, start, start, 0);
    assert RaisesAt(site, start, limits, start, 0);
  }

  function Capped(limits: Limits, depth: int, pages: int): Limits {
    limits.(maxDepth := Clamp(depth, 1, 5), maxPages := Clamp(pages, 1, 200))
  }

  /** Requested caps are honoured within their ranges and cut off at the ends. */
  lemma CappedMeans(limits: Limits, depth: int, pages: int)
    ensures var c := Capped(limits, depth, pages);
      && 1 <= c.maxDepth <= 5 && 1 <= c.maxPages <= 200
      && (1 <= depth <= 5 ==> c.maxDepth == depth) && (depth < 1 ==> c.maxDepth == 1) && (depth > 5 ==> c.maxDepth == 5)
      && (1 <= pages <= 200 ==> c.maxPages == pages) && (pages < 1 ==> c.maxPages == 1)
      && (pages > 200 ==> c.maxPages == 200)
      && c == limits.(maxDepth := c.maxDepth, maxPages := c.maxPages)
  {
  }

  /** A page at distance `d`, within the depth cap, with an anchor, asset or rewritable link the parser refuses. */
  ghost predicate RaisesAt(site: Site, start: string, limits: Limits, u: string, d: nat) {
    && Wanted(site, start, limits, u) && Distance(site, start, u, d) && site.fetch(u).Some?
    && (Malformed(site.fetch(u).value, limits, d)
        || exists p :: p in site.fetch(u).value.html && RaisingPiece(p))
  }

  ghost predicate RaisingPage(site: Site, start: string, limits: Limits, u: string) {
    exists d :: RaisesAt(site, start, limits, u, d)
  }

  lemma {:induction false} DeadStart(site: Site, start: string, n: nat)
    requires site.fetch(start).None?
    ensures Reach(site, start, n) == {start}
  {
    if n > 0 {
      DeadStart(site, start, n - 1);
    }
  }

  lemma StartVisited(site: Site, start: string, limits: Limits, m: Mirror)
    requires BreadthFirst(site, start, limits, m) && site.sameHost(start) && limits.maxPages >= 1
    ensures start in m.visited
  {
    ReachMonotone(site, start, 0, Horizon(limits));
    assert Wanted(site, start, limits, start);
    assert start in Reach(site, start, 0);
  }

  /** The returned page count includes pages that failed to render; the records count those that did. */
  lemma RenderedCount(site: Site, m: Mirror)
    requires RecordsOk(site, m.visited, m.records)
    ensures |m.records| == |set u | u in m.visited && site.fetch(u).Some?| <= |m.visited|
  {
    var rendered := set u | u in m.visited && site.fetch(u).Some?;
    UrlCount(m.records);
    assert rendered == Urls(m.records);
    SubsetSize(rendered, m.visited);
  }

  function Urls(records: seq<Record>): (r: set<string>)
    ensures forall u :: u in r <==> exists i :: 0 <= i < |records| && records[i].url == u
  {
    set i | 0 <= i < |records| :: records[i].url
  }

  lemma UrlsPush(front: seq<Record>, last: Record)
    ensures Urls(front + [last]) == Urls(front) + {last.url}
  {
    var records := front + [last];
    assert records[|front|].url == last.url;
    forall u | u in Urls(front)
      ensures u in Urls(records)
    {
      var i :| 0 <= i < |front| && front[i].url == u;
      assert records[i].url == u;
    }
  }

  lemma LastUrlNew(front: seq<Record>, last: Record)
    requires DistinctRecords(front + [last])
    ensures DistinctRecords(front) && last.url !in Urls(front)
  {
    var records := front + [last];
    forall i, j | 0 <= i < j < |records|
      ensures records[i].url != records[j].url
    {
    }
    assert records[|front|] == last && forall i :: 0 <= i < |front| ==> records[i] == front[i];
  }

  lemma {:induction false} UrlCount(records: seq<Record>)
    requires DistinctRecords(records)
    ensures |Urls(records)| == |records|
  {
    if records != [] {
      var front, last := records[..|records| - 1], records[|records| - 1];
      assert records == front + [last];
      LastUrlNew(front, last);
      UrlCount(front);
      UrlsPush(front, last);
    }
  }

  lemma RecordRendered(site: Site, m: Mirror, i: nat)
    requires RecordsOk(site, m.visited, m.records) && i < |m.records|
    ensures m.records[i].url in m.visited && site.fetch(m.records[i].url).Some?
  {
  }

  lemma AssetFromRecord(site: Site, limits: Limits, m: Mirror)
    requires AssetsCollected(site, limits, m.records, m.assets, m.assetBytes) && m.assets != []
    ensures m.records != []
  {
    assert OfferedByRecord(site, m.records, m.assets[0]);
  }

  lemma DeadMirror(site: Site, start: string, limits: Limits, m: Mirror)
    requires BreadthFirst(site, start, limits, m) && RecordsOk(site, m.visited, m.records)
    requires AssetsCollected(site, limits, m.records, m.assets, m.assetBytes)
    requires site.fetch(start).None? && m.visited != {}
    ensures m.visited == {start} && m.records == [] && m.assets == []
  {
    DeadStart(site, start, Horizon(limits));
    assert forall u :: u in m.visited ==> Wanted(site, start, limits, u);
    assert m.visited == {start};
    if m.records != [] {
      RecordRendered(site, m, 0);
      assert false;
    }
    if m.assets != [] {
      AssetFromRecord(site, limits, m);
      assert false;
    }
  }
}
