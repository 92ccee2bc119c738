/**
 The link graph a crawl walks.  Fetching, link extraction and URL joining are oracles: a page either
 fails to render or shows its anchors, already joined and normalised.  No page is fetched twice, so
 one answer per URL loses nothing.
 */
module SiteGraph {
  import opened CrawlUrl
  import opened Options

  /** A downloadable body: the file it is saved to and its length. */
  datatype Body = Body(file: string, size: nat)

  /** An attribute URL of a page, and what requesting it at that moment yields, if anything usable. */
  datatype AssetRef = AssetRef(link: Normalized, body: Option<Body>)

  /** A piece of rendered HTML: text, or an attribute whose URL the rewriter may replace. */
  datatype Piece =
    | Text(text: string)
    | Attr(name: string, gap: string, quote: char, url: string, target: Normalized)

  datatype Page = Page(anchors: seq<Normalized>, assets: seq<AssetRef>, html: seq<Piece>, file: string)

  datatype Site = Site(sameHost: string -> bool, fetch: string -> Option<Page>)

  /** The same-host pages a crawlable page links to. */
  function Links(anchors: seq<Normalized>, sameHost: string -> bool): set<string> {
    set i | 0 <= i < |anchors| && anchors[i].Url? && sameHost(anchors[i].text) :: anchors[i].text
  }

  function Successors(site: Site, u: string): set<string> {
    if site.sameHost(u) && site.fetch(u).Some? then Links(site.fetch(u).value.anchors, site.sameHost) else {}
  }

  /** The URLs at most `n` links away from `start`. */
  ghost function Reach(site: Site, start: string, n: nat): set<string> {
    if n == 0 then {start}
    else Reach(site, start, n - 1) + set u, v | u in Reach(site, start, n - 1) && v in Successors(site, u) :: v
  }

  /** `d` is the length of a shortest link path from `start` to `u`. */
  ghost predicate Distance(site: Site, start: string, u: string, d: nat) {
    u in Reach(site, start, d) && (d > 0 ==> u !in Reach(site, start, d - 1))
  }

  lemma {:induction false} ReachMonotone(site: Site, start: string, m: nat, n: nat)
    requires m <= n
    ensures Reach(site, start, m) <= Reach(site, start, n)
    decreases n
  {
    if m < n {
      ReachMonotone(site, start, m, n - 1);
    }
  }

  lemma DistanceBounds(site: Site, start: string, u: string, d: nat, k: nat)
    requires Distance(site, start, u, d)
    ensures u in Reach(site, start, k) <==> d <= k
  {
    if d <= k {
      ReachMonotone(site, start, d, k);
    } else if u in Reach(site, start, k) {
      ReachMonotone(site, start, k, d - 1);
    }
  }

  lemma {:induction false} ReachHasDistance(site: Site, start: string, u: string, n: nat)
    requires u in Reach(site, start, n)
    ensures exists d :: 0 <= d <= n && Distance(site, start, u, d)
  {
    if n > 0 && u in Reach(site, start, n - 1) {
      ReachHasDistance(site, start, u, n - 1);
    } else {
      assert Distance(site, start, u, n);
    }
  }

  // ---------- distances are shortest link paths ----------

  /** A link path: each page links to the next. */
  ghost predicate IsPath(site: Site, p: seq<string>) {
    p != [] && forall i :: 0 < i < |p| ==> p[i] in Successors(site, p[i - 1])
  }

  ghost predicate PathTo(site: Site, start: string, u: string, n: nat, p: seq<string>) {
    IsPath(site, p) && p[0] == start && p[|p| - 1] == u && |p| <= n + 1
  }

  lemma {:induction false} PathReaches(site: Site, start: string, u: string, n: nat, p: seq<string>)
    requires PathTo(site, start, u, n, p)
    ensures u in Reach(site, start, n)
    decreases n
  {
    if |p| == 1 {
      ReachMonotone(site, start, 0, n);
    } else {
      var front := p[..|p| - 1];
      var w := front[|front| - 1];
      assert PathTo(site, start, w, n - 1, front);
      PathReaches(site, start, w, n - 1, front);
    }
  }

  lemma {:induction false} ReachedByPath(site: Site, start: string, u: string, n: nat) returns (p: seq<string>)
    requires u in Reach(site, start, n)
    ensures PathTo(site, start, u, n, p)
    decreases n
  {
    if n == 0 {
      p := [start];
    } else if u in Reach(site, start, n - 1) {
      p := ReachedByPath(site, start, u, n - 1);
    } else {
      var w :| w in Reach(site, start, n - 1) && u in Successors(site, w);
      var front := ReachedByPath(site, start, w, n - 1);
      p := front + [u];
    }
  }

  /** Reach(n) is exactly what some link path of at most n links arrives at. */
  lemma ReachIffPath(site: Site, start: string, u: string, n: nat)
    ensures u in Reach(site, start, n) <==> exists p :: PathTo(site, start, u, n, p)
  {
    if u in Reach(site, start, n) {
      var p := ReachedByPath(site, start, u, n);
    }
    if exists p :: PathTo(site, start, u, n, p) {
      var p :| PathTo(site, start, u, n, p);
      PathReaches(site, start, u, n, p);
    }
  }
}
