/**
 The breadth-first crawl of `_render_site_to_directory`: a FIFO queue with depths, deduplication
 against the queue and the visited set, a depth cap, a page cap, and asset downloads under two byte
 budgets.  A malformed link makes the URL parser raise, which aborts the whole mirror.
 */
module Crawler {
  import opened CrawlUrl
  import opened SiteGraph
  import opened VisitOrder
  import opened Options

  type Queue = seq<(string, nat)>

  datatype Record = Record(url: string, file: string, html: seq<Piece>)

  datatype Asset = Asset(url: string, file: string, size: nat)

  /** What the crawl leaves behind: `queue` is the part of the frontier it did not get to. */
  datatype Mirror = Mirror(
    visited: set<string>, queue: Queue, records: seq<Record>, localMap: map<string, string>,
    assets: seq<Asset>, assetBytes: nat)

  datatype Limits = Limits(maxDepth: int, maxPages: int, includeAssets: bool, maxAssetBytes: int, maxTotalBytes: int)

  ghost function Horizon(limits: Limits): nat {
    if limits.maxDepth < 0 then 0 else limits.maxDepth
  }

  // ---------- queue invariants ----------

  predicate Queued(queue: Queue, u: string) {
    exists i :: 0 <= i < |queue| && queue[i].0 == u
  }

  /** Distinct URLs, none of them done, depths nondecreasing and spanning at most one level from `lo`. */
  ghost predicate QueueOk(queue: Queue, done: set<string>, lo: nat) {
    && (forall i, j :: 0 <= i < j < |queue| ==> queue[i].0 != queue[j].0 && queue[i].1 <= queue[j].1)
    && (forall i :: 0 <= i < |queue| ==> queue[i].0 !in done && lo <= queue[i].1 <= lo + 1)
  }

  /** `depthOf` gives every discovered URL its true distance, within the horizon. */
  ghost predicate DepthsOk(site: Site, start: string, horizon: nat, depthOf: map<string, nat>) {
    && start in depthOf && depthOf[start] == 0
    && (forall u :: u in depthOf ==>
          depthOf[u] <= horizon && Distance(site, start, u, depthOf[u]) && (u != start ==> site.sameHost(u)))
  }

  /** The discovered URLs are the done ones and the queued ones, with matching depths. */
  ghost predicate Discovered(queue: Queue, done: set<string>, lo: nat, depthOf: map<string, nat>) {
    && (forall i :: 0 <= i < |queue| ==> queue[i].0 in depthOf && depthOf[queue[i].0] == queue[i].1)
    && (forall u :: u in depthOf ==> u in done || Queued(queue, u))
    && (forall u :: u in done ==> u in depthOf && depthOf[u] <= lo)
  }

  /** Every done URL below the horizon, except those in `open`, has all its successors discovered. */
  ghost predicate Expanded(site: Site, horizon: nat, done: set<string>, open: set<string>, depthOf: map<string, nat>) {
    forall u, v :: u in done && u !in open && u in depthOf && depthOf[u] < horizon && v in Successors(site, u)
      ==> v in depthOf
  }

  ghost predicate CrawlInv(site: Site, start: string, horizon: nat, queue: Queue, done: set<string>,
                           open: set<string>, lo: nat, depthOf: map<string, nat>) {
    && QueueOk(queue, done, lo)
    && DepthsOk(site, start, horizon, depthOf)
    && Discovered(queue, done, lo, depthOf)
    && Expanded(site, horizon, done, open, depthOf)
  }

  /** Every discovered URL closer than `k` is done and expanded. */
  ghost predicate Settled(done: set<string>, open: set<string>, depthOf: map<string, nat>, k: nat) {
    forall u :: u in depthOf && depthOf[u] < k ==> u in done && u !in open
  }

  lemma SettledBelow(queue: Queue, done: set<string>, open: set<string>, lo: nat, depthOf: map<string, nat>, k: nat)
    requires QueueOk(queue, done, lo) && Discovered(queue, done, lo, depthOf)
    requires forall u :: u in open && u in depthOf ==> depthOf[u] >= k
    requires queue == [] || k <= lo
    ensures Settled(done, open, depthOf, k)
  {
    // a queued URL lies at level lo or beyond
  }

  /** Everything within `k` links is discovered, once everything closer than `k` is settled. */
  lemma {:induction false} Frontier(site: Site, start: string, horizon: nat, done: set<string>,
                                    open: set<string>, depthOf: map<string, nat>, k: nat)
    requires DepthsOk(site, start, horizon, depthOf) && Expanded(site, horizon, done, open, depthOf)
    requires Settled(done, open, depthOf, k) && k <= horizon
    ensures forall u :: u in Reach(site, start, k) ==> u in depthOf
  {
    if k > 0 {
      Frontier(site, start, horizon, done, open, depthOf, k - 1);
      forall u | u in Reach(site, start, k) && u !in Reach(site, start, k - 1)
        ensures u in depthOf
      {
        FrontierPage(site, start, horizon, done, open, depthOf, k, u);
      }
    }
  }

  lemma FrontierPage(site: Site, start: string, horizon: nat, done: set<string>, open: set<string>,
                     depthOf: map<string, nat>, k: nat, u: string)
    requires DepthsOk(site, start, horizon, depthOf) && Expanded(site, horizon, done, open, depthOf)
    requires Settled(done, open, depthOf, k) && 0 < k <= horizon
    requires forall w :: w in Reach(site, start, k - 1) ==> w in depthOf
    requires u in Reach(site, start, k) && u !in Reach(site, start, k - 1)
    ensures u in depthOf
  {
    var w :| w in Reach(site, start, k - 1) && u in Successors(site, w);
    FrontierStep(site, start, horizon, done, open, depthOf, k, w, u);
  }

  lemma FrontierStep(site: Site, start: string, horizon: nat, done: set<string>, open: set<string>,
                     depthOf: map<string, nat>, k: nat, w: string, u: string)
    requires DepthsOk(site, start, horizon, depthOf) && Expanded(site, horizon, done, open, depthOf)
    requires Settled(done, open, depthOf, k) && 0 < k <= horizon
    requires w in depthOf && w in Reach(site, start, k - 1) && u in Successors(site, w)
    ensures u in depthOf
  {
    DistanceBounds(site, start, w, depthOf[w], k - 1);
  }

  // ---------- the order of discovery ----------

  /** Every page discovered so far, in order, and the place of its first link. */
  datatype Trail = Trail(order: seq<string>, firsts: seq<Place>)

  /** The done pages come first, and the queue behind them. */
  ghost predicate Lined(queue: Queue, done: set<string>, n: nat, order: seq<string>) {
    && |order| == n + |queue| && Distinct(order)
    && (forall i :: 0 <= i < |queue| ==> order[n + i] == queue[i].0)
    && (forall u :: u in done <==> u in order[..n])
  }

  ghost predicate FoundFirst(site: Site, start: string, horizon: nat, t: Trail, j: nat) {
    && j < |t.order| == |t.firsts| && t.firsts[j].page < j && FirstLink(site, t.order, t.firsts[j], t.order[j])
    && Followable(site, start, horizon, t.order[t.firsts[j].page])
  }

  /** The first links stand in the order of their pages, and sooner than `at`. */
  ghost predicate Traced(site: Site, start: string, horizon: nat, at: Place, t: Trail) {
    && |t.firsts| == |t.order| && t.order != [] && t.order[0] == start
    && (forall j {:trigger FoundFirst(site, start, horizon, t, j)} ::
          0 < j < |t.order| ==> FoundFirst(site, start, horizon, t, j))
    && (forall j :: 0 < j < |t.order| ==> Sooner(t.firsts[j], at))
    && (forall j, k :: 0 < j < k < |t.order| ==> Sooner(t.firsts[j], t.firsts[k]))
  }

  ghost predicate TrailOk(site: Site, start: string, horizon: nat, queue: Queue, done: set<string>, n: nat, at: Place,
                          t: Trail) {
    Lined(queue, done, n, t.order) && Traced(site, start, horizon, at, t)
  }

  lemma TrailStarts(site: Site, start: string, horizon: nat)
    ensures TrailOk(site, start, horizon, [(start, 0)], {}, 0, Place(0, 0), Trail([start], [Place(0, 0)]))
  {
  }

  lemma TrailPop(queue: Queue, done: set<string>, n: nat, order: seq<string>)
    requires Lined(queue, done, n, order) && queue != []
    ensures n < |order| && order[n] == queue[0].0 && Lined(queue[1..], done + {queue[0].0}, n + 1, order)
  {
    assert order[..n + 1] == order[..n] + [order[n]];
    assert forall i :: 0 <= i < |queue[1..]| ==> queue[1..][i] == queue[i + 1];
    assert order[n + 0] == queue[0].0;
  }

  lemma TrailSkip(site: Site, start: string, horizon: nat, at: Place, later: Place, t: Trail)
    requires Traced(site, start, horizon, at, t) && (at == later || Sooner(at, later))
    ensures Traced(site, start, horizon, later, t)
  {
  }

  /** Pages found later do not change where a page was linked first. */
  lemma FirstLinkStays(site: Site, order: seq<string>, p: Place, v: string, u: string)
    requires FirstLink(site, order, p, v)
    ensures FirstLink(site, order + [u], p, v)
  {
    var longer := order + [u];
    forall q | LinkAt(site, longer, q, v)
      ensures q == p || Sooner(p, q)
    {
      if q.page < |order| {
        assert longer[q.page] == order[q.page];
        assert LinkAt(site, order, q, v);
      }
    }
    assert longer[p.page] == order[p.page];
    assert LinkAt(site, longer, p, v);
  }

  lemma FoundStays(site: Site, start: string, horizon: nat, t: Trail, j: nat, u: string, at: Place)
    requires FoundFirst(site, start, horizon, t, j)
    ensures FoundFirst(site, start, horizon, Trail(t.order + [u], t.firsts + [at]), j)
  {
    FirstLinkStays(site, t.order, t.firsts[j], t.order[j], u);
  }

  lemma LinedPush(queue: Queue, done: set<string>, n: nat, order: seq<string>, v: string, d: nat)
    requires Lined(queue, done, n, order) && v !in order
    ensures Lined(queue + [(v, d)], done, n, order + [v])
  {
    assert (order + [v])[..n] == order[..n];
  }

  lemma TracedPush(site: Site, start: string, horizon: nat, at: Place, t: Trail, v: string)
    requires Traced(site, start, horizon, at, t) && at.page < |t.order|
    requires FirstLink(site, t.order + [v], at, v) && Followable(site, start, horizon, t.order[at.page])
    ensures Traced(site, start, horizon, Place(at.page, at.anchor + 1), Trail(t.order + [v], t.firsts + [at]))
  {
    var t' := Trail(t.order + [v], t.firsts + [at]);
    forall j | 0 < j < |t'.order|
      ensures FoundFirst(site, start, horizon, t', j)
    {
      if j < |t.order| {
        FoundStays(site, start, horizon, t, j, v, at);
      }
    }
  }

  /** A link nothing knows yet stands at the first place that links to its page. */
  lemma NewIsFirst(site: Site, start: string, horizon: nat, queue: Queue, done: set<string>, depth: nat,
                   depthOf: map<string, nat>, current: string, anchors: seq<Normalized>, i: nat, n: nat,
                   order: seq<string>)
    requires Discovered(queue, done, depth, depthOf) && Expanded(site, horizon, done, {current}, depthOf)
    requires Lined(queue, done, n, order) && depth < horizon && n > 0 && order[n - 1] == current
    requires anchors == Anchors(site, current) && Followed(site, anchors, i, depthOf) && i < |anchors|
    requires anchors[i].Url? && site.sameHost(anchors[i].text) && anchors[i].text !in depthOf
    ensures FirstLink(site, order + [anchors[i].text], Place(n - 1, i), anchors[i].text)
  {
    var v := anchors[i].text;
    var longer := order + [v];
    assert longer[n - 1] == current;
    assert LinkAt(site, longer, Place(n - 1, i), v);
    forall q | LinkAt(site, longer, q, v)
      ensures q == Place(n - 1, i) || Sooner(Place(n - 1, i), q)
    {
      if q.page < n - 1 {
        assert longer[q.page] == order[q.page];
        LinkIsSuccessor(site, longer, q, v);
        EarlierKnows(site, horizon, queue, done, depth, depthOf, current, n, order, q.page, v);
      } else if q.page == n - 1 && q.anchor < i {
        FollowedKnows(site, anchors, i, depthOf, q.anchor, v);
      }
    }
  }

  lemma FollowedKnows(site: Site, anchors: seq<Normalized>, i: nat, depthOf: map<string, nat>, k: nat, v: string)
    requires Followed(site, anchors, i, depthOf) && k < i && anchors[k] == Url(v) && site.sameHost(v)
    ensures v in depthOf
  {
    assert anchors[k].text == v;
  }

  lemma EarlierKnows(site: Site, horizon: nat, queue: Queue, done: set<string>, depth: nat, depthOf: map<string, nat>,
                     current: string, n: nat, order: seq<string>, k: nat, v: string)
    requires Discovered(queue, done, depth, depthOf) && Expanded(site, horizon, done, {current}, depthOf)
    requires Lined(queue, done, n, order) && k < n - 1 && order[n - 1] == current && depth < horizon
    requires v in Successors(site, order[k])
    ensures v in depthOf
  {
    assert order[k] == order[..n][k] && order[k] in done && order[k] != current;
  }

  /** What the trail has found is what the crawl knows. */
  lemma TrailKnown(queue: Queue, done: set<string>, lo: nat, depthOf: map<string, nat>, n: nat, order: seq<string>,
                   v: string)
    requires Discovered(queue, done, lo, depthOf) && Lined(queue, done, n, order)
    ensures v in order <==> v in depthOf
  {
    if v in order {
      var j :| 0 <= j < |order| && order[j] == v;
      if j < n {
        assert order[..n][j] == v;
      } else {
        assert queue[j - n].0 == v;
      }
    }
    if v in depthOf && v !in done {
      var i :| 0 <= i < |queue| && queue[i].0 == v;
      assert order[n + i] == v;
    }
  }

  /** The trail as the crawl leaves it is the order of discovery. */
  lemma TrailEnds(site: Site, start: string, horizon: nat, queue: Queue, done: set<string>, lo: nat,
                  depthOf: map<string, nat>, n: nat, t: Trail)
    requires CrawlInv(site, start, horizon, queue, done, {}, lo, depthOf)
    requires TrailOk(site, start, horizon, queue, done, n, Place(n, 0), t)
    ensures Discovers(site, start, horizon, t.order, n)
  {
    forall j | 0 < j < |t.order|
      ensures Found(site, start, horizon, t.order, n, j)
    {
      assert FoundFirst(site, start, horizon, t, j);
      assert FoundAt(site, start, horizon, t.order, n, j, t.firsts[j]);
    }
    TrailInOrder(site, start, horizon, Place(n, 0), t);
    forall i, v | 0 <= i < n && Followable(site, start, horizon, t.order[i]) && v in Successors(site, t.order[i])
      ensures v in t.order
    {
      assert t.order[..n][i] == t.order[i];
      DistanceBounds(site, start, t.order[i], depthOf[t.order[i]], horizon - 1);
      TrailKnown(queue, done, lo, depthOf, n, t.order, v);
    }
  }

  lemma TrailInOrder(site: Site, start: string, horizon: nat, at: Place, t: Trail)
    requires Traced(site, start, horizon, at, t)
    ensures InLinkOrder(site, t.order)
  {
    forall j, k, p, q | 0 < j < |t.order| && 0 < k < |t.order| && FirstLink(site, t.order, p, t.order[j])
      && FirstLink(site, t.order, q, t.order[k])
      ensures j < k <==> Sooner(p, q)
    {
      IsFirst(site, start, horizon, at, t, j, p);
      IsFirst(site, start, horizon, at, t, k, q);
      FirstsInOrder(site, start, horizon, at, t, j, k);
    }
  }

  lemma IsFirst(site: Site, start: string, horizon: nat, at: Place, t: Trail, j: nat, p: Place)
    requires Traced(site, start, horizon, at, t) && 0 < j < |t.order| && FirstLink(site, t.order, p, t.order[j])
    ensures p == t.firsts[j]
  {
    assert FoundFirst(site, start, horizon, t, j);
  }

  lemma FirstsInOrder(site: Site, start: string, horizon: nat, at: Place, t: Trail, j: nat, k: nat)
    requires Traced(site, start, horizon, at, t) && 0 < j < |t.order| && 0 < k < |t.order|
    ensures j < k <==> Sooner(t.firsts[j], t.firsts[k])
  {
  }

  // ---------- following the anchors of a page ----------

  /** Appends the page's new same-host links; None when a link makes the URL parser raise. */
  method FollowAnchors(site: Site, start: string, ghost horizon: nat, anchors: seq<Normalized>, current: string,
                       depth: nat, visited: set<string>, queue0: Queue, ghost done: set<string>,
                       ghost depthOf0: map<string, nat>, ghost n: nat, ghost t0: Trail)
    returns (raised: bool, queue: Queue, ghost depthOf: map<string, nat>, ghost t: Trail)
    requires CrawlInv(site, start, horizon, queue0, done, {current}, depth, depthOf0)
    requires current in done && current in depthOf0 && depthOf0[current] == depth < horizon
    requires Successors(site, current) == Links(anchors, site.sameHost) && anchors == Anchors(site, current)
    requires visited == Hosted(site, done)
    requires OnTrail(site, start, horizon, queue0, done, n, 0, t0, current)
    ensures raised <==> Raises in anchors
    ensures !raised ==> CrawlInv(site, start, horizon, queue, done, {}, depth, depthOf)
    ensures !raised ==> OnTrail(site, start, horizon, queue, done, n, |anchors|, t, current) && t0.order <= t.order
    ensures Deeper(depthOf0, depthOf)
  {
    raised, queue, depthOf, t := false, queue0, depthOf0, t0;
    for i := 0 to |anchors|
      invariant CrawlInv(site, start, horizon, queue, done, {current}, depth, depthOf)
      invariant OnTrail(site, start, horizon, queue, done, n, i, t, current) && t0.order <= t.order
      invariant Deeper(depthOf0, depthOf) && Followed(site, anchors, i, depthOf)
    {
      if anchors[i].Raises? {
        raised := true;
        return;
      }
      queue, depthOf, t := FollowAnchor(site, start, horizon, anchors, i, current, depth, visited, queue, done,
                                        depthOf0, depthOf, n, t);
    }
    AllFollowed(site, anchors, current, depthOf);
    CloseCurrent(site, horizon, done, current, depthOf);
  }

  /** The trail while the anchors of its `n`-th page are followed, `i` of them so far. */
  ghost predicate OnTrail(site: Site, start: string, horizon: nat, queue: Queue, done: set<string>, n: nat, i: nat,
                          t: Trail, current: string) {
    0 < n <= |t.order| && t.order[n - 1] == current
    && TrailOk(site, start, horizon, queue, done, n, Place(n - 1, i), t)
  }

  /** The first `n` anchors did not raise, and the links among them are known. */
  ghost predicate Followed(site: Site, anchors: seq<Normalized>, n: nat, depthOf: map<string, nat>) {
    && n <= |anchors|
    && (forall j :: 0 <= j < n ==> !anchors[j].Raises?)
    && (forall j :: 0 <= j < n && anchors[j].Url? && site.sameHost(anchors[j].text) ==> anchors[j].text in depthOf)
  }

  method FollowAnchor(site: Site, start: string, ghost horizon: nat, anchors: seq<Normalized>, i: nat,
                      ghost current: string,
                      depth: nat, visited: set<string>, queue0: Queue, ghost done: set<string>,
                      ghost before: map<string, nat>, ghost depthOf0: map<string, nat>, ghost n: nat, ghost t0: Trail)
    returns (queue: Queue, ghost depthOf: map<string, nat>, ghost t: Trail)
    requires CrawlInv(site, start, horizon, queue0, done, {current}, depth, depthOf0)
    requires current in done && current in depthOf0 && depthOf0[current] == depth < horizon
    requires Successors(site, current) == Links(anchors, site.sameHost) && anchors == Anchors(site, current)
    requires visited == Hosted(site, done) && OnTrail(site, start, horizon, queue0, done, n, i, t0, current)
    requires Deeper(before, depthOf0) && Followed(site, anchors, i, depthOf0)
    requires i < |anchors| && !anchors[i].Raises?
    ensures CrawlInv(site, start, horizon, queue, done, {current}, depth, depthOf)
    ensures OnTrail(site, start, horizon, queue, done, n, i + 1, t, current) && t0.order <= t.order
    ensures Deeper(before, depthOf) && Followed(site, anchors, i + 1, depthOf)
  {
    queue, depthOf := queue0, depthOf0;
    if anchors[i].Url? && site.sameHost(anchors[i].text) {
      LinkOf(site, anchors, i, current);
      queue, depthOf := FollowLink(site, start, horizon, anchors[i].text, current, depth, visited, queue0, done,
                                   depthOf0);
    }
    t := TrailNext(site, start, horizon, anchors, i, current, depth, queue0, done, depthOf0, n, t0);
    FollowedNext(site, anchors, i, before, depthOf0, depthOf);
  }

  /** The trail after one anchor more: a new page is added at its place. */
  lemma TrailNext(site: Site, start: string, horizon: nat, anchors: seq<Normalized>, i: nat, current: string,
                  depth: nat, queue: Queue, done: set<string>, depthOf: map<string, nat>, n: nat, t0: Trail)
    returns (t: Trail)
    requires CrawlInv(site, start, horizon, queue, done, {current}, depth, depthOf)
    requires current in depthOf && depthOf[current] == depth < horizon && i < |anchors|
    requires anchors == Anchors(site, current) && Followed(site, anchors, i, depthOf)
    requires OnTrail(site, start, horizon, queue, done, n, i, t0, current)
    ensures OnTrail(site, start, horizon, Pushed(site, queue, anchors[i], depth, depthOf), done, n, i + 1, t, current)
    ensures t0.order <= t.order
  {
    if IsNew(site, anchors[i], depthOf) {
      t := TrailNew(site, start, horizon, anchors, i, current, depth, queue, done, depthOf, n, t0);
    } else {
      t := t0;
      TrailSkip(site, start, horizon, Place(n - 1, i), Place(n - 1, i + 1), t0);
    }
  }

  lemma TrailNew(site: Site, start: string, horizon: nat, anchors: seq<Normalized>, i: nat, current: string,
                 depth: nat, queue: Queue, done: set<string>, depthOf: map<string, nat>, n: nat, t0: Trail)
    returns (t: Trail)
    requires CrawlInv(site, start, horizon, queue, done, {current}, depth, depthOf)
    requires current in depthOf && depthOf[current] == depth < horizon && i < |anchors|
    requires anchors == Anchors(site, current) && Followed(site, anchors, i, depthOf)
    requires OnTrail(site, start, horizon, queue, done, n, i, t0, current) && IsNew(site, anchors[i], depthOf)
    ensures OnTrail(site, start, horizon, queue + [(anchors[i].text, depth + 1)], done, n, i + 1, t, current)
    ensures t0.order <= t.order
  {
    var v := anchors[i].text;
    NewIsFirst(site, start, horizon, queue, done, depth, depthOf, current, anchors, i, n, t0.order);
    FollowableAt(site, start, horizon, depthOf, current);
    TrailKnown(queue, done, depth, depthOf, n, t0.order, v);
    t := Trail(t0.order + [v], t0.firsts + [Place(n - 1, i)]);
    TrailGrows(site, start, horizon, queue, done, n, i, t0, v, depth + 1, current);
  }

  lemma TrailGrows(site: Site, start: string, horizon: nat, queue: Queue, done: set<string>, n: nat, i: nat,
                   t: Trail, v: string, d: nat, current: string)
    requires OnTrail(site, start, horizon, queue, done, n, i, t, current) && v !in t.order
    requires FirstLink(site, t.order + [v], Place(n - 1, i), v) && Followable(site, start, horizon, current)
    ensures OnTrail(site, start, horizon, queue + [(v, d)], done, n, i + 1,
                    Trail(t.order + [v], t.firsts + [Place(n - 1, i)]), current)
  {
    LinedPush(queue, done, n, t.order, v, d);
    TracedPush(site, start, horizon, Place(n - 1, i), t, v);
  }

  lemma FollowableAt(site: Site, start: string, horizon: nat, depthOf: map<string, nat>, u: string)
    requires DepthsOk(site, start, horizon, depthOf) && u in depthOf && horizon > 0
    ensures Followable(site, start, horizon, u) <==> depthOf[u] < horizon
  {
    DistanceBounds(site, start, u, depthOf[u], horizon - 1);
  }

  ghost predicate IsNew(site: Site, link: Normalized, depthOf: map<string, nat>) {
    link.Url? && site.sameHost(link.text) && link.text !in depthOf
  }

  /** The queue after a link: a new one goes to its end. */
  ghost function Pushed(site: Site, queue: Queue, link: Normalized, depth: nat, depthOf: map<string, nat>): Queue {
    if IsNew(site, link, depthOf) then queue + [(link.text, depth + 1)] else queue
  }

  lemma FollowedNext(site: Site, anchors: seq<Normalized>, i: nat, before: map<string, nat>,
                     depthOf0: map<string, nat>, depthOf: map<string, nat>)
    requires Deeper(before, depthOf0) && Deeper(depthOf0, depthOf) && Followed(site, anchors, i, depthOf0)
    requires i < |anchors| && !anchors[i].Raises?
    requires anchors[i].Url? && site.sameHost(anchors[i].text) ==> anchors[i].text in depthOf
    ensures Deeper(before, depthOf) && Followed(site, anchors, i + 1, depthOf)
  {
  }

  lemma LinkOf(site: Site, anchors: seq<Normalized>, i: nat, current: string)
    requires Successors(site, current) == Links(anchors, site.sameHost)
    requires i < |anchors| && anchors[i].Url? && site.sameHost(anchors[i].text)
    ensures anchors[i].text in Successors(site, current)
  {
    assert anchors[i].text in Links(anchors, site.sameHost);
  }

  lemma AllFollowed(site: Site, anchors: seq<Normalized>, current: string, depthOf: map<string, nat>)
    requires Successors(site, current) == Links(anchors, site.sameHost)
    requires Followed(site, anchors, |anchors|, depthOf)
    ensures forall v :: v in Successors(site, current) ==> v in depthOf
    ensures Raises !in anchors
  {
  }

  ghost predicate Deeper(depthOf: map<string, nat>, more: map<string, nat>) {
    forall u :: u in depthOf ==> u in more && more[u] == depthOf[u]
  }

  /** Queues a link that is neither visited nor pending. */
  method FollowLink(site: Site, start: string, ghost horizon: nat, normalized: string, ghost current: string,
                    depth: nat, visited: set<string>, queue0: Queue, ghost done: set<string>,
                    ghost depthOf0: map<string, nat>)
    returns (queue: Queue, ghost depthOf: map<string, nat>)
    requires CrawlInv(site, start, horizon, queue0, done, {current}, depth, depthOf0)
    requires current in done && current in depthOf0 && depthOf0[current] == depth < horizon
    requires normalized in Successors(site, current) && site.sameHost(normalized)
    requires visited == Hosted(site, done)
    ensures CrawlInv(site, start, horizon, queue, done, {current}, depth, depthOf)
    ensures Deeper(depthOf0, depthOf) && normalized in depthOf
    ensures queue == Pushed(site, queue0, Url(normalized), depth, depthOf0)
  {
    queue, depthOf := queue0, depthOf0;
    if normalized !in visited && !Queued(queue, normalized) {
      NewLink(site, start, horizon, queue, done, depth, depthOf, current, normalized);
      queue := queue + [(normalized, depth + 1)];
      depthOf := depthOf[normalized := depth + 1];
    } else {
      KnownLink(site, queue, done, depth, depthOf, normalized);
    }
  }

  lemma KnownLink(site: Site, queue: Queue, done: set<string>, lo: nat, depthOf: map<string, nat>, v: string)
    requires Discovered(queue, done, lo, depthOf) && (v in done || Queued(queue, v))
    ensures v in depthOf
  {
  }

  /** A successor of the current page that nothing knows yet is one link farther than that page. */
  lemma NewDistance(site: Site, start: string, horizon: nat, queue: Queue, done: set<string>, depth: nat,
                    depthOf: map<string, nat>, current: string, v: string)
    requires CrawlInv(site, start, horizon, queue, done, {current}, depth, depthOf)
    requires current in done && current in depthOf && depthOf[current] == depth < horizon
    requires v in Successors(site, current) && v !in depthOf
    ensures Distance(site, start, v, depth + 1)
  {
    SettledBelow(queue, done, {current}, depth, depthOf, depth);
    Frontier(site, start, horizon, done, {current}, depthOf, depth);
    assert current in Reach(site, start, depth);
  }

  lemma QueuedPush(queue: Queue, v: string, d: nat)
    ensures forall u :: Queued(queue + [(v, d)], u) <==> Queued(queue, u) || u == v
  {
    var queue' := queue + [(v, d)];
    assert queue'[|queue|].0 == v;
    forall u | Queued(queue, u)
      ensures Queued(queue', u)
    {
      var i :| 0 <= i < |queue| && queue[i].0 == u;
      assert queue'[i].0 == u;
    }
  }

  lemma PushQueueOk(queue: Queue, done: set<string>, depth: nat, v: string)
    requires QueueOk(queue, done, depth) && v !in done && !Queued(queue, v)
    ensures QueueOk(queue + [(v, depth + 1)], done, depth)
  {
  }

  lemma PushDiscovered(queue: Queue, done: set<string>, depth: nat, depthOf: map<string, nat>, v: string)
    requires Discovered(queue, done, depth, depthOf) && v !in depthOf
    ensures Discovered(queue + [(v, depth + 1)], done, depth, depthOf[v := depth + 1])
  {
    QueuedPush(queue, v, depth + 1);
  }

  /** Appending an undiscovered successor of the current page keeps the invariant. */
  lemma NewLink(site: Site, start: string, horizon: nat, queue: Queue, done: set<string>, depth: nat,
                depthOf: map<string, nat>, current: string, v: string)
    requires CrawlInv(site, start, horizon, queue, done, {current}, depth, depthOf)
    requires current in done && current in depthOf && depthOf[current] == depth < horizon
    requires v in Successors(site, current) && v !in done && !Queued(queue, v) && site.sameHost(v)
    ensures CrawlInv(site, start, horizon, queue + [(v, depth + 1)], done, {current}, depth, depthOf[v := depth + 1])
    ensures v !in depthOf
  {
    assert v !in depthOf;
    NewDistance(site, start, horizon, queue, done, depth, depthOf, current, v);
    PushQueueOk(queue, done, depth, v);
    PushDiscovered(queue, done, depth, depthOf, v);
    PushDepths(site, start, horizon, depthOf, v, depth + 1);
    PushExpanded(site, horizon, done, {current}, depthOf, v, depth + 1);
  }

  lemma PushDepths(site: Site, start: string, horizon: nat, depthOf: map<string, nat>, v: string, d: nat)
    requires DepthsOk(site, start, horizon, depthOf) && v !in depthOf
    requires d <= horizon && Distance(site, start, v, d) && site.sameHost(v)
    ensures DepthsOk(site, start, horizon, depthOf[v := d])
  {
  }

  lemma PushExpanded(site: Site, horizon: nat, done: set<string>, open: set<string>, depthOf: map<string, nat>,
                     v: string, d: nat)
    requires Expanded(site, horizon, done, open, depthOf) && v !in depthOf && v !in done
    ensures Expanded(site, horizon, done, open, depthOf[v := d])
  {
  }

  /** Once all its successors are discovered the current page is closed. */
  lemma CloseCurrent(site: Site, horizon: nat, done: set<string>, current: string, depthOf: map<string, nat>)
    requires Expanded(site, horizon, done, {current}, depthOf)
    requires current in depthOf && depthOf[current] < horizon ==>
      forall v :: v in Successors(site, current) ==> v in depthOf
    ensures Expanded(site, horizon, done, {}, depthOf)
  {
  }

  // ---------- downloading the assets of a page ----------

  function TotalSize(assets: seq<Asset>): nat {
    if assets == [] then 0 else TotalSize(assets[..|assets| - 1]) + assets[|assets| - 1].size
  }

  predicate Downloaded(assets: seq<Asset>, u: string) {
    exists i :: 0 <= i < |assets| && assets[i].url == u
  }

  /** Distinct same-host downloads within both budgets, and the running total is their sum. */
  ghost predicate AssetsOk(site: Site, limits: Limits, assets: seq<Asset>, total: nat) {
    && DistinctUrls(assets)
    && (forall i :: 0 <= i < |assets| ==> assets[i].size <= limits.maxAssetBytes && site.sameHost(assets[i].url))
    && total == TotalSize(assets)
    && (assets != [] ==> total <= limits.maxTotalBytes)
  }

  /**
   Greedy completeness: of a page's usable same-host assets within the single-file budget, each was
   downloaded or no longer fits the total budget.
   */
  ghost predicate Taken(site: Site, limits: Limits, refs: seq<AssetRef>, assets: seq<Asset>, total: nat) {
    forall k :: 0 <= k < |refs| && Usable(site, limits, refs[k]) ==>
      Downloaded(assets, refs[k].link.text) || total + refs[k].body.value.size > limits.maxTotalBytes
  }

  predicate Usable(site: Site, limits: Limits, ref: AssetRef) {
    ref.link.Url? && site.sameHost(ref.link.text) && ref.body.Some? && ref.body.value.size <= limits.maxAssetBytes
  }

  /** A downloaded asset is one the page offered, saved under its own name and with its own length. */
  ghost predicate Offered(refs: seq<AssetRef>, a: Asset) {
    AssetRef(Url(a.url), Some(Body(a.file, a.size))) in refs
  }

  lemma TakenGrows(site: Site, limits: Limits, refs: seq<AssetRef>, assets: seq<Asset>, total: nat, more: seq<Asset>,
                   total': nat)
    requires Taken(site, limits, refs, assets, total) && assets <= more && total <= total'
    ensures Taken(site, limits, refs, more, total')
  {
    forall u | Downloaded(assets, u)
      ensures Downloaded(more, u)
    {
      var i :| 0 <= i < |assets| && assets[i].url == u;
      assert more[i].url == u;
    }
  }

  /** The file a URL is mapped to was written: by a download, or by a page rendered at that URL. */
  ghost predicate MapOk(localMap: map<string, string>, records: seq<Record>, assets: seq<Asset>) {
    && (forall u :: u in localMap ==>
          (exists i :: 0 <= i < |records| && records[i].url == u && records[i].file == localMap[u]) ||
          (exists i :: 0 <= i < |assets| && assets[i].url == u && assets[i].file == localMap[u]))
    && (forall i :: 0 <= i < |records| ==> records[i].url in localMap)
    && (forall i :: 0 <= i < |assets| ==> assets[i].url in localMap)
  }

  /** The part of the mirror the download loop updates. */
  datatype Shelf = Shelf(assets: seq<Asset>, total: nat, localMap: map<string, string>)

  ghost predicate Unrefused(refs: seq<AssetRef>) {
    forall i :: 0 <= i < |refs| ==> !refs[i].link.Raises?
  }

  /** What the loop has established after going through `refs`, starting from `s0`. */
  ghost predicate ShelfOk(site: Site, limits: Limits, refs: seq<AssetRef>, records: seq<Record>, s0: Shelf, s: Shelf) {
    && AssetsOk(site, limits, s.assets, s.total) && MapOk(s.localMap, records, s.assets)
    && s0.assets <= s.assets && s0.total <= s.total
    && Unrefused(refs) && ShelfFilled(site, limits, refs, |s0.assets|, s)
  }

  ghost predicate ShelfFilled(site: Site, limits: Limits, refs: seq<AssetRef>, n: nat, s: Shelf) {
    && Taken(site, limits, refs, s.assets, s.total) && OfferedSince(refs, n, s.assets)
    && GreedyFrom(site, limits, refs, n, s.assets)
  }

  /** After `n` assets the references were gone through in order, each taken if it passed the guards at its turn. */
  ghost predicate GreedyFrom(site: Site, limits: Limits, refs: seq<AssetRef>, n: nat, assets: seq<Asset>)
    decreases |refs|
  {
    if refs == [] then |assets| == n
    else
      exists a: nat ::
        && a <= |assets| && Decided(site, limits, refs[|refs| - 1], assets, a)
        && GreedyFrom(site, limits, refs[..|refs| - 1], n, assets[..a])
  }

  /** The last reference came when `a` assets had been taken. */
  ghost predicate Decided(site: Site, limits: Limits, ref: AssetRef, assets: seq<Asset>, a: nat) {
    a <= |assets| &&
    if Accepts(site, limits, ref, assets[..a], TotalSize(assets[..a])) then
      |assets| == a + 1 && assets[a] == Asset(ref.link.text, ref.body.value.file, ref.body.value.size)
    else |assets| == a
  }

  lemma GreedyNext(site: Site, limits: Limits, refs: seq<AssetRef>, ref: AssetRef, n: nat, assets: seq<Asset>,
                   more: seq<Asset>)
    requires GreedyFrom(site, limits, refs, n, assets) && assets <= more
    requires Decided(site, limits, ref, more, |assets|)
    ensures GreedyFrom(site, limits, refs + [ref], n, more)
  {
    assert (refs + [ref])[..|refs|] == refs && more[..|assets|] == assets;
  }

  ghost predicate OfferedSince(refs: seq<AssetRef>, n: nat, assets: seq<Asset>) {
    forall i :: n <= i < |assets| ==> Offered(refs, assets[i])
  }

  method DownloadAssets(site: Site, limits: Limits, refs: seq<AssetRef>, ghost records: seq<Record>, s0: Shelf)
    returns (raised: bool, s: Shelf)
    requires AssetsOk(site, limits, s0.assets, s0.total) && MapOk(s0.localMap, records, s0.assets)
    ensures raised ==> !Unrefused(refs)
    ensures !raised ==> ShelfOk(site, limits, refs, records, s0, s)
  {
    raised, s := false, s0;
    ShelfStarts(site, limits, refs[..0], records, s0);
    for k := 0 to |refs|
      invariant ShelfOk(site, limits, refs[..k], records, s0, s)
    {
      if refs[k].link.Raises? {
        raised := true;
        return;
      }
      s := DownloadAsset(site, limits, refs, k, records, s0, s);
    }
    ShelfEnds(site, limits, refs, records, s0, s);
  }

  lemma ShelfEnds(site: Site, limits: Limits, refs: seq<AssetRef>, records: seq<Record>, s0: Shelf, s: Shelf)
    requires ShelfOk(site, limits, refs[..|refs|], records, s0, s)
    ensures ShelfOk(site, limits, refs, records, s0, s)
  {
    assert refs[..|refs|] == refs;
  }

  lemma ShelfStarts(site: Site, limits: Limits, refs: seq<AssetRef>, records: seq<Record>, s: Shelf)
    requires AssetsOk(site, limits, s.assets, s.total) && MapOk(s.localMap, records, s.assets) && |refs| == 0
    ensures ShelfOk(site, limits, refs, records, s, s)
  {
  }

  method DownloadAsset(site: Site, limits: Limits, refs: seq<AssetRef>, k: nat, ghost records: seq<Record>,
                       ghost s0: Shelf, s: Shelf)
    returns (s': Shelf)
    requires k < |refs| && ShelfOk(site, limits, refs[..k], records, s0, s) && !refs[k].link.Raises?
    ensures ShelfOk(site, limits, refs[..k + 1], records, s0, s')
  {
    var ref := refs[k];
    assert refs[..k + 1] == refs[..k] + [ref];
    if Accepts(site, limits, ref, s.assets, s.total) {
      var body := ref.body.value;
      var asset := Asset(ref.link.text, body.file, body.size);
      s' := Shelf(s.assets + [asset], s.total + body.size, s.localMap[asset.url := asset.file]);
      ShelfPush(site, limits, refs[..k], ref, records, s0, s, asset, s');
    } else {
      ShelfSkip(site, limits, refs[..k], ref, records, s0, s);
      s' := s;
    }
  }

  /** The guards of the download loop, in order. */
  predicate Accepts(site: Site, limits: Limits, ref: AssetRef, assets: seq<Asset>, total: nat) {
    && ref.link.Url? && !Downloaded(assets, ref.link.text) && site.sameHost(ref.link.text)
    && ref.body.Some? && ref.body.value.size <= limits.maxAssetBytes
    && total + ref.body.value.size <= limits.maxTotalBytes
  }

  lemma ShelfPush(site: Site, limits: Limits, refs: seq<AssetRef>, ref: AssetRef, records: seq<Record>, s0: Shelf,
                  s: Shelf, asset: Asset, s': Shelf)
    requires ShelfOk(site, limits, refs, records, s0, s) && Accepts(site, limits, ref, s.assets, s.total)
    requires ref == AssetRef(Url(asset.url), Some(Body(asset.file, asset.size)))
    requires s' == Shelf(s.assets + [asset], s.total + asset.size, s.localMap[asset.url := asset.file])
    ensures ShelfOk(site, limits, refs + [ref], records, s0, s')
  {
    ShelfCounts(site, limits, ref, s, asset, s');
    ShelfMap(records, s, asset, s');
    ShelfFills(site, limits, refs, ref, |s0.assets|, s, asset, s');
    UnrefusedPush(refs, ref);
  }

  lemma ShelfCounts(site: Site, limits: Limits, ref: AssetRef, s: Shelf, asset: Asset, s': Shelf)
    requires AssetsOk(site, limits, s.assets, s.total) && Accepts(site, limits, ref, s.assets, s.total)
    requires ref == AssetRef(Url(asset.url), Some(Body(asset.file, asset.size)))
    requires s'.assets == s.assets + [asset] && s'.total == s.total + asset.size
    ensures AssetsOk(site, limits, s'.assets, s'.total)
  {
    PushAssetOk(site, limits, s.assets, s.total, asset);
  }

  lemma ShelfMap(records: seq<Record>, s: Shelf, asset: Asset, s': Shelf)
    requires MapOk(s.localMap, records, s.assets)
    requires s'.assets == s.assets + [asset] && s'.localMap == s.localMap[asset.url := asset.file]
    ensures MapOk(s'.localMap, records, s'.assets)
  {
    AddAsset(s.localMap, records, s.assets, asset);
  }

  lemma ShelfFills(site: Site, limits: Limits, refs: seq<AssetRef>, ref: AssetRef, n: nat, s: Shelf, asset: Asset,
                   s': Shelf)
    requires ShelfFilled(site, limits, refs, n, s) && s.total == TotalSize(s.assets)
    requires Accepts(site, limits, ref, s.assets, s.total)
    requires ref == AssetRef(Url(asset.url), Some(Body(asset.file, asset.size)))
    requires s'.assets == s.assets + [asset] && s'.total == s.total + asset.size
    ensures ShelfFilled(site, limits, refs + [ref], n, s')
  {
    TakenGrows(site, limits, refs, s.assets, s.total, s'.assets, s'.total);
    assert s'.assets[|s.assets|].url == ref.link.text;
    TakenNext(site, limits, refs, ref, s'.assets, s'.total);
    OfferedPush(refs, ref, n, s.assets, asset);
    assert s'.assets[..|s.assets|] == s.assets;
    GreedyNext(site, limits, refs, ref, n, s.assets, s'.assets);
  }

  lemma ShelfSkip(site: Site, limits: Limits, refs: seq<AssetRef>, ref: AssetRef, records: seq<Record>, s0: Shelf,
                  s: Shelf)
    requires ShelfOk(site, limits, refs, records, s0, s) && !Accepts(site, limits, ref, s.assets, s.total)
    requires !ref.link.Raises?
    ensures ShelfOk(site, limits, refs + [ref], records, s0, s)
  {
    OfferedGrows(refs, ref, |s0.assets|, s.assets);
    assert s.assets[..|s.assets|] == s.assets;
    GreedyNext(site, limits, refs, ref, |s0.assets|, s.assets, s.assets);
    TakenNext(site, limits, refs, ref, s.assets, s.total);
    UnrefusedPush(refs, ref);
  }

  lemma UnrefusedPush(refs: seq<AssetRef>, ref: AssetRef)
    requires Unrefused(refs) && !ref.link.Raises?
    ensures Unrefused(refs + [ref])
  {
  }

  lemma OfferedGrows(refs: seq<AssetRef>, ref: AssetRef, n: nat, assets: seq<Asset>)
    requires OfferedSince(refs, n, assets)
    ensures OfferedSince(refs + [ref], n, assets)
  {
    forall i | n <= i < |assets|
      ensures Offered(refs + [ref], assets[i])
    {
      assert Offered(refs, assets[i]);
    }
  }

  lemma OfferedPush(refs: seq<AssetRef>, ref: AssetRef, n: nat, assets: seq<Asset>, asset: Asset)
    requires OfferedSince(refs, n, assets) && ref == AssetRef(Url(asset.url), Some(Body(asset.file, asset.size)))
    ensures OfferedSince(refs + [ref], n, assets + [asset])
  {
    OfferedGrows(refs, ref, n, assets);
    assert ref in refs + [ref];
  }

  lemma TakenNext(site: Site, limits: Limits, refs: seq<AssetRef>, ref: AssetRef, assets: seq<Asset>, total: nat)
    requires Taken(site, limits, refs, assets, total)
    requires !Accepts(site, limits, ref, assets, total)
    ensures Taken(site, limits, refs + [ref], assets, total)
  {
  }

  ghost predicate DistinctUrls(assets: seq<Asset>) {
    forall i, j :: 0 <= i < j < |assets| ==> assets[i].url != assets[j].url
  }

  lemma PushDistinct(assets: seq<Asset>, asset: Asset)
    requires DistinctUrls(assets) && !Downloaded(assets, asset.url)
    ensures DistinctUrls(assets + [asset]) && Downloaded(assets + [asset], asset.url)
  {
    assert (assets + [asset])[|assets|].url == asset.url;
  }

  lemma PushSize(assets: seq<Asset>, asset: Asset)
    ensures TotalSize(assets + [asset]) == TotalSize(assets) + asset.size
  {
    assert (assets + [asset])[..|assets|] == assets;
  }

  lemma PushAssetOk(site: Site, limits: Limits, assets: seq<Asset>, total: nat, asset: Asset)
    requires AssetsOk(site, limits, assets, total)
    requires !Downloaded(assets, asset.url) && site.sameHost(asset.url)
    requires asset.size <= limits.maxAssetBytes && total + asset.size <= limits.maxTotalBytes
    ensures AssetsOk(site, limits, assets + [asset], total + asset.size)
    ensures Downloaded(assets + [asset], asset.url)
  {
    PushDistinct(assets, asset);
    PushSize(assets, asset);
  }

  lemma AddAsset(localMap: map<string, string>, records: seq<Record>, assets: seq<Asset>, asset: Asset)
    requires MapOk(localMap, records, assets)
    ensures MapOk(localMap[asset.url := asset.file], records, assets + [asset])
  {
    var assets' := assets + [asset];
    assert assets'[|assets|] == asset;
    forall u | u in localMap && u != asset.url &&
      exists i :: 0 <= i < |assets| && assets[i].url == u && assets[i].file == localMap[u]
      ensures exists i :: 0 <= i < |assets'| && assets'[i].url == u && assets'[i].file == localMap[u]
    {
      var i :| 0 <= i < |assets| && assets[i].url == u && assets[i].file == localMap[u];
      assert assets'[i] == assets[i];
    }
  }

  lemma AddRecord(localMap: map<string, string>, records: seq<Record>, assets: seq<Asset>, record: Record)
    requires MapOk(localMap, records, assets)
    ensures MapOk(localMap[record.url := record.file], records + [record], assets)
  {
    var records' := records + [record];
    assert records'[|records|] == record;
    forall u | u in localMap && u != record.url &&
      exists i :: 0 <= i < |records| && records[i].url == u && records[i].file == localMap[u]
      ensures exists i :: 0 <= i < |records'| && records'[i].url == u && records'[i].file == localMap[u]
    {
      var i :| 0 <= i < |records| && records[i].url == u && records[i].file == localMap[u];
      assert records'[i] == records[i];
    }
  }

  // ---------- the crawl ----------

  /** The pages a crawl is after: on the host, and at most the horizon's number of links away. */
  ghost predicate Wanted(site: Site, start: string, limits: Limits, u: string) {
    u in Reach(site, start, Horizon(limits)) && site.sameHost(u)
  }

  /** One record for every visited page that rendered, in order of distance. */
  ghost predicate RecordsOk(site: Site, visited: set<string>, records: seq<Record>) {
    && (forall i :: 0 <= i < |records| ==>
          && records[i].url in visited && site.fetch(records[i].url).Some?
          && records[i].file == site.fetch(records[i].url).value.file
          && records[i].html == site.fetch(records[i].url).value.html)
    && (forall u :: u in visited && site.fetch(u).Some? ==> exists i :: 0 <= i < |records| && records[i].url == u)
    && (forall i, j :: 0 <= i < j < |records| ==> records[i].url != records[j].url)
  }

  ghost predicate RecordsByDistance(records: seq<Record>, depthOf: map<string, nat>, lo: nat) {
    && (forall i :: 0 <= i < |records| ==> records[i].url in depthOf && depthOf[records[i].url] <= lo)
    && (forall i, j :: 0 <= i < j < |records| && records[i].url in depthOf && records[j].url in depthOf ==>
          depthOf[records[i].url] <= depthOf[records[j].url])
  }

  /** Every download was offered by a rendered page, and every page's offers were taken as budgets allowed. */
  ghost predicate AssetsCollected(site: Site, limits: Limits, records: seq<Record>,
                                  assets: seq<Asset>, total: nat) {
    && (forall i :: 0 <= i < |assets| ==> OfferedByRecord(site, records, assets[i]))
    && (if limits.includeAssets then
          TakenInOrder(site, limits, records, assets) &&
          forall i :: 0 <= i < |records| && site.fetch(records[i].url).Some? ==>
            Taken(site, limits, site.fetch(records[i].url).value.assets, assets, total)
        else assets == [])
  }

  /** The pages were gone through in order, and on each page the assets it offers. */
  ghost predicate TakenInOrder(site: Site, limits: Limits, records: seq<Record>, assets: seq<Asset>)
    decreases |records|
  {
    if records == [] then assets == []
    else
      var last := site.fetch(records[|records| - 1].url);
      last.Some? &&
      exists a: nat ::
        && a <= |assets| && GreedyFrom(site, limits, last.value.assets, a, assets)
        && TakenInOrder(site, limits, records[..|records| - 1], assets[..a])
  }

  lemma TakenNextPage(site: Site, limits: Limits, records: seq<Record>, record: Record, page: Page,
                      assets: seq<Asset>, more: seq<Asset>)
    requires TakenInOrder(site, limits, records, assets) && site.fetch(record.url) == Some(page) && assets <= more
    requires GreedyFrom(site, limits, page.assets, |assets|, more)
    ensures TakenInOrder(site, limits, records + [record], more)
  {
    assert (records + [record])[..|records|] == records && more[..|assets|] == assets;
  }

  ghost predicate OfferedByRecord(site: Site, records: seq<Record>, a: Asset) {
    exists i :: 0 <= i < |records| && site.fetch(records[i].url).Some? &&
      Offered(site.fetch(records[i].url).value.assets, a)
  }

  lemma CollectMore(site: Site, limits: Limits, records: seq<Record>, assets: seq<Asset>, total: nat,
                    record: Record, page: Page, more: seq<Asset>, total': nat)
    requires AssetsCollected(site, limits, records, assets, total)
    requires site.fetch(record.url) == Some(page)
    requires assets <= more && total <= total'
    requires forall i :: |assets| <= i < |more| ==> Offered(page.assets, more[i])
    requires if limits.includeAssets then
        Taken(site, limits, page.assets, more, total') && GreedyFrom(site, limits, page.assets, |assets|, more)
      else more == assets
    ensures AssetsCollected(site, limits, records + [record], more, total')
  {
    var records' := records + [record];
    forall i | 0 <= i < |more|
      ensures OfferedByRecord(site, records', more[i])
    {
      if i < |assets| {
        assert OfferedByRecord(site, records, assets[i]);
        var j :| 0 <= j < |records| && site.fetch(records[j].url).Some? &&
          Offered(site.fetch(records[j].url).value.assets, assets[i]);
        assert records'[j] == records[j];
      } else {
        assert records'[|records|] == record;
      }
    }
    if limits.includeAssets {
      TakenNextPage(site, limits, records, record, page, assets, more);
      forall i | 0 <= i < |records'| && site.fetch(records'[i].url).Some?
        ensures Taken(site, limits, site.fetch(records'[i].url).value.assets, more, total')
      {
        if i < |records| {
          TakenGrows(site, limits, site.fetch(records[i].url).value.assets, assets, total, more, total');
        }
      }
    }
  }

  /** The crawl visited exactly what a breadth-first search visits before the page cap stops it. */
  ghost predicate BreadthFirst(site: Site, start: string, limits: Limits, m: Mirror) {
    // only wanted pages, never more than the cap
    && (forall u :: u in m.visited ==> Wanted(site, start, limits, u))
    && |m.visited| <= (if limits.maxPages < 0 then 0 else limits.maxPages)
    // all of them, unless the cap stopped the crawl
    && (m.queue == [] || |m.visited| < limits.maxPages ==>
          forall u :: Wanted(site, start, limits, u) ==> u in m.visited)
    // and when it did, nothing it left out is closer than anything it visited
    && (forall u, v, k: nat ::
          (u in m.visited && v !in m.visited && site.sameHost(v) && k <= Horizon(limits) && v in Reach(site, start, k))
          ==> u in Reach(site, start, k))
    // the records come out in order of distance
    && (forall i, j, k: nat :: 0 <= i < j < |m.records| && m.records[j].url in Reach(site, start, k)
          ==> m.records[i].url in Reach(site, start, k))
  }

  /** The crawl puts a link of this page through the URL parser, and the parser cannot take it. */
  ghost predicate Malformed(page: Page, limits: Limits, depth: nat) {
    || (depth < limits.maxDepth && Raises in page.anchors)
    || (limits.includeAssets && !Unrefused(page.assets))
  }

  ghost predicate MalformedAt(site: Site, start: string, limits: Limits, u: string, d: nat) {
    Distance(site, start, u, d) && site.fetch(u).Some? && Malformed(site.fetch(u).value, limits, d)
  }

  /** A page within reach stops the crawl. */
  ghost predicate HasMalformedLink(site: Site, start: string, limits: Limits) {
    exists u, d :: Wanted(site, start, limits, u) && MalformedAt(site, start, limits, u, d)
  }

  /** A page that stops the crawl at a distance where every page within it fits the page cap. */
  ghost predicate MustRaise(site: Site, start: string, limits: Limits) {
    exists u, d :: Wanted(site, start, limits, u) && MalformedAt(site, start, limits, u, d)
      && |PagesWithin(site, start, d)| <= limits.maxPages
  }

  /** A page that stops the crawl at a distance the crawl can get to before the page cap is used up. */
  ghost predicate MayRaise(site: Site, start: string, limits: Limits) {
    exists u, d :: Wanted(site, start, limits, u) && MalformedAt(site, start, limits, u, d)
      && |PagesCloser(site, start, d)| < limits.maxPages
  }

  /** None of these pages stops the crawl. */
  ghost predicate Sound(site: Site, limits: Limits, visited: set<string>, depthOf: map<string, nat>) {
    forall u :: u in visited && u in depthOf && site.fetch(u).Some? ==>
      !Malformed(site.fetch(u).value, limits, depthOf[u])
  }

  ghost predicate NoneMalformed(site: Site, start: string, limits: Limits, visited: set<string>) {
    forall u, d :: u in visited ==> !MalformedAt(site, start, limits, u, d)
  }

  /** The loop invariant of the crawl. */
  ghost predicate Crawling(site: Site, start: string, limits: Limits, m: Mirror, done: set<string>,
                           lo: nat, depthOf: map<string, nat>) {
    && CrawlInv(site, start, Horizon(limits), m.queue, done, {}, lo, depthOf)
    && m.visited == Hosted(site, done)
    && RecordsOk(site, m.visited, m.records)
    && RecordsByDistance(m.records, depthOf, lo)
    && Sound(site, limits, m.visited, depthOf)
    && AssetsOk(site, limits, m.assets, m.assetBytes)
    && MapOk(m.localMap, m.records, m.assets)
    && AssetsCollected(site, limits, m.records, m.assets, m.assetBytes)
  }

  /** The same, while the page just taken off the queue waits to be processed. */
  ghost predicate Opened(site: Site, start: string, limits: Limits, m: Mirror, done: set<string>,
                         depthOf: map<string, nat>, current: string, depth: nat) {
    && CrawlInv(site, start, Horizon(limits), m.queue, done, {current}, depth, depthOf)
    && current in done && current in depthOf && depthOf[current] == depth
    && m.visited == Hosted(site, done)
    && RecordsOk(site, m.visited - {current}, m.records)
    && RecordsByDistance(m.records, depthOf, depth)
    && Sound(site, limits, m.visited - {current}, depthOf)
    && AssetsOk(site, limits, m.assets, m.assetBytes)
    && MapOk(m.localMap, m.records, m.assets)
    && AssetsCollected(site, limits, m.records, m.assets, m.assetBytes)
  }

  ghost function Hosted(site: Site, done: set<string>): set<string> {
    set u | u in done && site.sameHost(u)
  }

  /** The depths the crawl worked with are the true distances, for what it visited and for what it left queued. */
  ghost predicate TrueDepths(site: Site, start: string, m: Mirror, depthOf: map<string, nat>) {
    && (forall u :: u in m.visited ==> u in depthOf && Distance(site, start, u, depthOf[u]))
    && (forall i :: 0 <= i < |m.queue| ==>
          m.queue[i].0 !in m.visited && Distance(site, start, m.queue[i].0, m.queue[i].1))
    && (forall u, i :: u in m.visited && u in depthOf && 0 <= i < |m.queue| ==>
          depthOf[u] <= m.queue[i].1)
    && (forall i, j :: 0 <= i < j < |m.queue| ==>
          m.queue[i].0 != m.queue[j].0 && m.queue[i].1 <= m.queue[j].1 <= m.queue[i].1 + 1)
  }

  ghost function PagesWithin(site: Site, start: string, n: nat): set<string> {
    set u | u in Reach(site, start, n) && site.sameHost(u)
  }

  ghost function PagesCloser(site: Site, start: string, n: nat): set<string> {
    if n == 0 then {} else PagesWithin(site, start, n - 1)
  }

  ghost function WantedPages(site: Site, start: string, limits: Limits): set<string> {
    PagesWithin(site, start, Horizon(limits))
  }

  /** The page cap does not bind. */
  ghost predicate CapLoose(site: Site, start: string, limits: Limits) {
    |WantedPages(site, start, limits)| <= limits.maxPages
  }

  /** A page is visited when it fits the cap together with every page that is no farther away. */
  lemma FittingIsVisited(site: Site, start: string, limits: Limits, m: Mirror, u: string, d: nat)
    requires BreadthFirst(site, start, limits, m) && Wanted(site, start, limits, u) && Distance(site, start, u, d)
    requires |PagesWithin(site, start, d)| <= limits.maxPages
    ensures u in m.visited
  {
    DistanceBounds(site, start, u, d, Horizon(limits));
    if u !in m.visited {
      var within := PagesWithin(site, start, d);
      forall v | v in m.visited
        ensures v in within
      {
        assert Wanted(site, start, limits, v);
      }
      ProperSubset(m.visited, within, u);
      assert false;
    }
  }

  /** A visited page leaves room in the cap for all pages closer to the start. */
  lemma VisitedIsEarly(site: Site, start: string, limits: Limits, m: Mirror, u: string, d: nat)
    requires BreadthFirst(site, start, limits, m) && u in m.visited && Distance(site, start, u, d)
    ensures |PagesCloser(site, start, d)| < limits.maxPages
  {
    var closer := PagesCloser(site, start, d);
    assert Wanted(site, start, limits, u);
    DistanceBounds(site, start, u, d, Horizon(limits));
    forall v | v in closer
      ensures v in m.visited
    {
      if v !in m.visited {
        assert false;
      }
    }
    ProperSubset(closer, m.visited, u);
  }

  lemma ProperSubset<T>(a: set<T>, b: set<T>, x: T)
    requires a <= b && x in b && x !in a
    ensures |a| < |b|
  {
    assert b == a + (b - a) && x in b - a;
  }

  lemma {:induction false} LooseFits(site: Site, start: string, limits: Limits, u: string, d: nat)
    requires CapLoose(site, start, limits) && Wanted(site, start, limits, u) && Distance(site, start, u, d)
    ensures |PagesWithin(site, start, d)| <= limits.maxPages
  {
    DistanceBounds(site, start, u, d, Horizon(limits));
    ReachMonotone(site, start, d, Horizon(limits));
    SubsetSize(PagesWithin(site, start, d), WantedPages(site, start, limits));
  }

  lemma SubsetSize<T>(a: set<T>, b: set<T>)
    requires a <= b
    ensures |a| <= |b|
  {
    assert b == a + (b - a);
  }

  /** Under a loose cap exactly the wanted pages are visited. */
  lemma LooseVisitsAll(site: Site, start: string, limits: Limits, m: Mirror)
    requires BreadthFirst(site, start, limits, m) && CapLoose(site, start, limits)
    ensures m.visited == WantedPages(site, start, limits)
  {
    forall u | u in m.visited
      ensures u in WantedPages(site, start, limits)
    {
      assert Wanted(site, start, limits, u);
    }
    forall u | u in WantedPages(site, start, limits)
      ensures u in m.visited
    {
      ReachHasDistance(site, start, u, Horizon(limits));
      var d :| 0 <= d <= Horizon(limits) && Distance(site, start, u, d);
      LooseFits(site, start, limits, u, d);
      FittingIsVisited(site, start, limits, m, u, d);
    }
  }

  /** What a finished crawl rules out. */
  lemma NothingMissed(site: Site, start: string, limits: Limits, m: Mirror)
    requires BreadthFirst(site, start, limits, m) && NoneMalformed(site, start, limits, m.visited)
    ensures !MustRaise(site, start, limits)
  {
    forall u, d | Wanted(site, start, limits, u) && MalformedAt(site, start, limits, u, d)
      ensures |PagesWithin(site, start, d)| > limits.maxPages
    {
      if |PagesWithin(site, start, d)| <= limits.maxPages {
        FittingIsVisited(site, start, limits, m, u, d);
        assert false;
      }
    }
  }

  /** Where the cap does not bind, the two bounds meet. */
  lemma LooseRaises(site: Site, start: string, limits: Limits)
    requires CapLoose(site, start, limits)
    ensures HasMalformedLink(site, start, limits) <==> MustRaise(site, start, limits)
  {
    if HasMalformedLink(site, start, limits) {
      var u, d :| Wanted(site, start, limits, u) && MalformedAt(site, start, limits, u, d);
      LooseFits(site, start, limits, u, d);
    }
  }

  /** The records come in this order. */
  ghost predicate RecordsInOrder(records: seq<Record>, order: seq<string>) {
    forall i, j, a, b ::
      0 <= i < j < |records| && 0 <= a < |order| && 0 <= b < |order|
      && records[i].url == order[a] && records[j].url == order[b] ==>
        a < b
  }

  /** What was visited, in which order: the first pages of the order of discovery, as many as the page cap lets in. */
  ghost predicate VisitsInOrder(site: Site, start: string, limits: Limits, m: Mirror, order: seq<string>) {
    && |m.queue| <= |order| && Discovers(site, start, Horizon(limits), order, |order| - |m.queue|)
    && QueueLast(m.queue, order)
    && (m.queue != [] && limits.maxPages >= 0 ==> |m.visited| == limits.maxPages)
    && VisitedPrefix(site, start, m.visited, |order| - |m.queue|, order)
    && RecordsInOrder(m.records, order)
  }

  /** The pages the crawl did not get to, in their order. */
  ghost predicate QueueLast(queue: Queue, order: seq<string>) {
    |queue| <= |order| && forall i :: 0 <= i < |queue| ==> order[|order| - |queue| + i] == queue[i].0
  }

  /** Exactly the first `n` pages were visited, or none if the crawl started off the host. */
  ghost predicate VisitedPrefix(site: Site, start: string, visited: set<string>, n: nat, order: seq<string>) {
    if site.sameHost(start) then |visited| == n <= |order| && forall u :: u in visited <==> u in order[..n]
    else visited == {}
  }

  lemma CrawlOrder(site: Site, start: string, limits: Limits, m: Mirror, done: set<string>, lo: nat,
                   depthOf: map<string, nat>, n: nat, t: Trail)
    requires Crawling(site, start, limits, m, done, lo, depthOf)
    requires TrailOk(site, start, Horizon(limits), m.queue, done, n, Place(n, 0), t)
    requires |m.visited| <= (if limits.maxPages < 0 then 0 else limits.maxPages)
    requires m.queue == [] || |m.visited| >= limits.maxPages
    requires RecordsInOrder(m.records, t.order)
    ensures VisitsInOrder(site, start, limits, m, t.order)
  {
    TrailEnds(site, start, Horizon(limits), m.queue, done, lo, depthOf, n, t);
    LinedMeans(m.queue, done, n, t.order);
    VisitedFirst(site, start, Horizon(limits), m.queue, done, lo, depthOf, n, t);
    OrderMeans(site, start, limits, m, t.order, n);
  }

  lemma OrderMeans(site: Site, start: string, limits: Limits, m: Mirror, order: seq<string>, n: nat)
    requires n == |order| - |m.queue| && Discovers(site, start, Horizon(limits), order, n)
    requires QueueLast(m.queue, order) && VisitedPrefix(site, start, m.visited, n, order)
    requires m.queue != [] && limits.maxPages >= 0 ==> |m.visited| == limits.maxPages
    requires RecordsInOrder(m.records, order)
    ensures VisitsInOrder(site, start, limits, m, order)
  {
  }

  lemma VisitedFirst(site: Site, start: string, horizon: nat, queue: Queue, done: set<string>, lo: nat,
                     depthOf: map<string, nat>, n: nat, t: Trail)
    requires CrawlInv(site, start, horizon, queue, done, {}, lo, depthOf)
    requires TrailOk(site, start, horizon, queue, done, n, Place(n, 0), t)
    ensures VisitedPrefix(site, start, Hosted(site, done), n, t.order)
  {
    if site.sameHost(start) {
      DoneHosted(site, start, horizon, queue, done, lo, depthOf);
      LinedMeans(queue, done, n, t.order);
    } else {
      NothingHosted(site, start, horizon, queue, done, n, Place(n, 0), t);
    }
  }

  lemma DoneHosted(site: Site, start: string, horizon: nat, queue: Queue, done: set<string>, lo: nat,
                   depthOf: map<string, nat>)
    requires Discovered(queue, done, lo, depthOf) && DepthsOk(site, start, horizon, depthOf) && site.sameHost(start)
    ensures Hosted(site, done) == done
  {
  }

  lemma LinedMeans(queue: Queue, done: set<string>, n: nat, order: seq<string>)
    requires Lined(queue, done, n, order)
    ensures |done| == n == |order| - |queue| && forall u :: u in done <==> u in order[..|done|]
    ensures QueueLast(queue, order)
  {
    MembersCount(order[..n]);
    assert done == Members(order[..n]);
  }

  function Members(order: seq<string>): set<string> {
    set u | u in order
  }

  lemma {:induction false} MembersCount(order: seq<string>)
    requires Distinct(order)
    ensures |Members(order)| == |order|
  {
    if order != [] {
      var front, last := order[..|order| - 1], order[|order| - 1];
      MembersCount(front);
      assert order == front + [last];
      assert Members(order) == Members(front) + {last} && last !in front;
    }
  }

  lemma SecondIsLinked(site: Site, start: string, horizon: nat, at: Place, t: Trail)
    requires Traced(site, start, horizon, at, t) && |t.order| > 1
    ensures site.sameHost(start)
  {
    assert FoundFirst(site, start, horizon, t, 1);
  }

  /** A start off the host is never visited, and its links are not followed. */
  lemma NothingHosted(site: Site, start: string, horizon: nat, queue: Queue, done: set<string>, n: nat, at: Place,
                      t: Trail)
    requires TrailOk(site, start, horizon, queue, done, n, at, t) && !site.sameHost(start)
    ensures Hosted(site, done) == {}
  {
    if |t.order| > 1 {
      SecondIsLinked(site, start, horizon, at, t);
      assert false;
    }
    assert forall u :: u in done ==> u in t.order[..n] && u == start;
  }

  /** The site and the limits decide which pages are visited, and in which order. */
  lemma VisitsDetermined(site: Site, start: string, limits: Limits, a: Mirror, aOrder: seq<string>, b: Mirror,
                         bOrder: seq<string>)
    requires VisitsInOrder(site, start, limits, a, aOrder) && |a.visited| <= limits.maxPages
    requires VisitsInOrder(site, start, limits, b, bOrder) && |b.visited| <= limits.maxPages
    ensures a.visited == b.visited && (site.sameHost(start) ==> aOrder == bOrder)
  {
    if site.sameHost(start) {
      if |a.visited| <= |b.visited| {
        SameOrder(site, start, limits, a, aOrder, b, bOrder);
      } else {
        SameOrder(site, start, limits, b, bOrder, a, aOrder);
      }
    }
  }

  lemma SameOrder(site: Site, start: string, limits: Limits, a: Mirror, aOrder: seq<string>, b: Mirror,
                  bOrder: seq<string>)
    requires VisitsInOrder(site, start, limits, a, aOrder) && |a.visited| <= limits.maxPages
    requires VisitsInOrder(site, start, limits, b, bOrder) && |b.visited| <= limits.maxPages
    requires site.sameHost(start) && |a.visited| <= |b.visited|
    ensures a.visited == b.visited && aOrder == bOrder
  {
    var horizon := Horizon(limits);
    OrderUnique(site, start, horizon, aOrder, |a.visited|, bOrder, |b.visited|);
    if |a.visited| < |b.visited| {
      assert a.queue == [] && |a.visited| == |aOrder|;
      OrderComplete(site, start, horizon, aOrder, bOrder, |b.visited|);
      assert false;
    }
  }

  method Crawl(site: Site, start: string, limits: Limits)
    returns (r: Option<Mirror>, ghost depthOf: map<string, nat>, ghost order: seq<string>)
    // it raises only for a malformed page the cap lets it get to, and always for one within the cap in any order;
    // so where the page cap does not bind, exactly when some page within reach has a malformed link
    ensures r.None? ==> MayRaise(site, start, limits)
    ensures MustRaise(site, start, limits) ==> r.None?
    ensures r.Some? ==> NoneMalformed(site, start, limits, r.value.visited)
    ensures CapLoose(site, start, limits) ==> (r.None? <==> HasMalformedLink(site, start, limits))
    ensures r.Some? ==> TrueDepths(site, start, r.value, depthOf)
    ensures r.Some? ==> BreadthFirst(site, start, limits, r.value)
    // the pages in the order they were found, which the links of the site determine
    ensures r.Some? ==> VisitsInOrder(site, start, limits, r.value, order)
    ensures r.Some? ==> RecordsOk(site, r.value.visited, r.value.records)
    ensures r.Some? ==> AssetsOk(site, limits, r.value.assets, r.value.assetBytes)
    ensures r.Some? ==> AssetsCollected(site, limits, r.value.records, r.value.assets, r.value.assetBytes)
    ensures r.Some? ==> MapOk(r.value.localMap, r.value.records, r.value.assets)
  {
    var m := Mirror({}, [(start, 0)], [], map[], [], 0);
    ghost var done, lo: nat := {}, 0;
    depthOf := map[start := 0];
    CrawlStarts(site, start, limits, m);
    ghost var n: nat, t := 0, Trail([start], [Place(0, 0)]);
    TrailStarts(site, start, Horizon(limits));

    while m.queue != [] && |m.visited| < limits.maxPages
      invariant Crawling(site, start, limits, m, done, lo, depthOf)
      invariant TrailOk(site, start, Horizon(limits), m.queue, done, n, Place(n, 0), t)
      invariant RecordsLined(m.records, n, t.order)
      invariant |m.visited| <= (if limits.maxPages < 0 then 0 else limits.maxPages)
      decreases limits.maxPages - |m.visited|, |m.queue|
    {
      var raised;
      ghost var before, t0 := m.records, t;
      raised, m, done, lo, depthOf, t := CrawlPage(site, start, limits, m, done, lo, depthOf, n, t);
      if raised {
        LooseMay(site, start, limits);
        return None, depthOf, t.order;
      }
      NextLined(before, m.records, n, t0.order, t.order);
      n := n + 1;
    }
    r, order := Some(m), t.order;
    CrawlEnds(site, start, limits, m, done, lo, depthOf);
    RecordsLinedMeans(m.records, n, t.order);
    CrawlOrder(site, start, limits, m, done, lo, depthOf, n, t);
  }

  /** The records are of pages among the first `n`, in their order. */
  ghost predicate RecordsLined(records: seq<Record>, n: nat, order: seq<string>) {
    && n <= |order| && Distinct(order) && RecordsInOrder(records, order)
    && forall i :: 0 <= i < |records| ==> records[i].url in order[..n]
  }

  lemma NextLined(before: seq<Record>, after: seq<Record>, n: nat, order: seq<string>, longer: seq<string>)
    requires RecordsLined(before, n, order) && order <= longer && n < |longer| && Distinct(longer)
    requires NextRecord(before, after, longer[n])
    ensures RecordsLined(after, n + 1, longer)
  {
  }

  lemma RecordsLinedMeans(records: seq<Record>, n: nat, order: seq<string>)
    requires RecordsLined(records, n, order)
    ensures RecordsInOrder(records, order)
  {
  }

  lemma LooseMay(site: Site, start: string, limits: Limits)
    requires MayRaise(site, start, limits)
    ensures HasMalformedLink(site, start, limits)
  {
  }

  /** One pass of the loop: the head of the queue is skipped, fails to render, or is visited. */
  method CrawlPage(site: Site, start: string, limits: Limits, m0: Mirror, ghost done0: set<string>, ghost lo0: nat,
                   ghost depthOf0: map<string, nat>, ghost n: nat, ghost t0: Trail)
    returns (raised: bool, m: Mirror, ghost done: set<string>, ghost lo: nat, ghost depthOf: map<string, nat>,
             ghost t: Trail)
    requires Crawling(site, start, limits, m0, done0, lo0, depthOf0)
    requires TrailOk(site, start, Horizon(limits), m0.queue, done0, n, Place(n, 0), t0)
    requires m0.queue != [] && |m0.visited| < limits.maxPages
    ensures raised ==> MayRaise(site, start, limits)
    ensures !raised ==> CrawlStep(site, start, limits, m0, m, done, lo, depthOf, n, t0, t)
  {
    var (current, depth) := m0.queue[0];
    HeadIsNew(site, start, limits, m0, done0, lo0, depthOf0);
    raised, m, depthOf, t := false, m0.(queue := m0.queue[1..]), depthOf0, t0;
    // the queue never holds a visited URL, so the source's membership test on `current` cannot fire
    assert current !in m.visited;
    done, lo := done0 + {current}, depth;
    if !site.sameHost(current) {
      SkipHead(site, start, limits, m0, done0, lo0, depthOf0, n, t0, m);
      return;
    }
    m := m0.(queue := m0.queue[1..], visited := m0.visited + {current});
    if site.fetch(current).None? {
      SkipHead(site, start, limits, m0, done0, lo0, depthOf0, n, t0, m);
      return;
    }
    raised, m, depthOf, t := VisitHead(site, start, limits, m0, m, current, depth, site.fetch(current).value, done0,
                                       lo0, depthOf0, n, t0);
  }

  method VisitHead(site: Site, start: string, limits: Limits, ghost m0: Mirror, m1: Mirror, current: string,
                   depth: nat, page: Page, ghost done: set<string>, ghost lo: nat, ghost depthOf0: map<string, nat>,
                   ghost n: nat, ghost t0: Trail)
    returns (raised: bool, m: Mirror, ghost depthOf: map<string, nat>, ghost t: Trail)
    requires Crawling(site, start, limits, m0, done, lo, depthOf0) && Popped(site, m0, m1)
    requires TrailOk(site, start, Horizon(limits), m0.queue, done, n, Place(n, 0), t0)
    requires m0.queue[0] == (current, depth) && site.sameHost(current) && site.fetch(current) == Some(page)
    requires |m0.visited| < limits.maxPages
    ensures raised ==> MayRaise(site, start, limits)
    ensures !raised ==> CrawlStep(site, start, limits, m0, m, done + {current}, depth, depthOf, n, t0, t)
  {
    OpenHead(site, start, limits, m0, done, lo, depthOf0, n, t0, m1);
    raised, m, depthOf, t := VisitPage(site, start, limits, m1, page, current, depth, done + {current}, depthOf0,
                                       n + 1, t0);
    if !raised {
      VisitStep(site, start, limits, m0, m, done + {current}, depth, depthOf, n, t0, t, current, page);
    }
  }

  lemma VisitStep(site: Site, start: string, limits: Limits, m0: Mirror, m: Mirror, done: set<string>, lo: nat,
                  depthOf: map<string, nat>, n: nat, t0: Trail, t: Trail, current: string, page: Page)
    requires Crawling(site, start, limits, m, done, lo, depthOf)
    requires TrailOk(site, start, Horizon(limits), m.queue, done, n + 1, Place(n + 1, 0), t) && t0.order <= t.order
    requires n < |t0.order| && t0.order[n] == current && current !in m0.visited && m.visited == m0.visited + {current}
    requires m.records == m0.records + [Record(current, page.file, page.html)]
    ensures CrawlStep(site, start, limits, m0, m, done, lo, depthOf, n, t0, t)
  {
  }

  lemma HeadIsNew(site: Site, start: string, limits: Limits, m: Mirror, done: set<string>, lo: nat,
                  depthOf: map<string, nat>)
    requires Crawling(site, start, limits, m, done, lo, depthOf) && m.queue != []
    ensures m.queue[0].0 !in m.visited
  {
    PopFront(site, start, limits, m, done, lo, depthOf);
  }

  /** The mirror with the head of its queue taken off, and counted as visited if it is on the host. */
  ghost predicate Popped(site: Site, m0: Mirror, m: Mirror) {
    m0.queue != [] &&
    var u := m0.queue[0].0;
    m == m0.(queue := m0.queue[1..], visited := if site.sameHost(u) then m0.visited + {u} else m0.visited)
  }

  /** A page off the host or not rendered is done at once. */
  lemma SkipHead(site: Site, start: string, limits: Limits, m0: Mirror, done: set<string>, lo: nat,
                 depthOf: map<string, nat>, n: nat, t: Trail, m: Mirror)
    requires Crawling(site, start, limits, m0, done, lo, depthOf) && Popped(site, m0, m)
    requires TrailOk(site, start, Horizon(limits), m0.queue, done, n, Place(n, 0), t)
    requires !site.sameHost(m0.queue[0].0) || site.fetch(m0.queue[0].0).None?
    ensures var (u, d) := m0.queue[0]; CrawlStep(site, start, limits, m0, m, done + {u}, d, depthOf, n, t, t)
  {
    var (u, d) := m0.queue[0];
    PopFront(site, start, limits, m0, done, lo, depthOf);
    ClosePage(site, start, limits, m, done + {u}, depthOf, u, d);
    TrailPop(m0.queue, done, n, t.order);
    TrailSkip(site, start, Horizon(limits), Place(n, 0), Place(n + 1, 0), t);
  }

  lemma OpenHead(site: Site, start: string, limits: Limits, m0: Mirror, done: set<string>, lo: nat,
                 depthOf: map<string, nat>, n: nat, t: Trail, m: Mirror)
    requires Crawling(site, start, limits, m0, done, lo, depthOf) && Popped(site, m0, m)
    requires TrailOk(site, start, Horizon(limits), m0.queue, done, n, Place(n, 0), t)
    ensures var (u, d) := m0.queue[0];
      && Opened(site, start, limits, m, done + {u}, depthOf, u, d)
      && OnTrail(site, start, Horizon(limits), m.queue, done + {u}, n + 1, 0, t, u)
      && n < |t.order| && t.order[n] == u && u !in m0.visited
  {
    PopFront(site, start, limits, m0, done, lo, depthOf);
    TrailPop(m0.queue, done, n, t.order);
  }

  /** One pass: the invariants for one page more, and the page counted as visited or gone from the queue. */
  ghost predicate CrawlStep(site: Site, start: string, limits: Limits, m0: Mirror, m: Mirror, done: set<string>,
                            lo: nat, depthOf: map<string, nat>, n: nat, t0: Trail, t: Trail) {
    && Crawling(site, start, limits, m, done, lo, depthOf)
    && TrailOk(site, start, Horizon(limits), m.queue, done, n + 1, Place(n + 1, 0), t)
    && n < |t.order| && t0.order <= t.order && NextRecord(m0.records, m.records, t.order[n])
    && (|m.visited| == |m0.visited| + 1 || (m.visited == m0.visited && |m.queue| < |m0.queue|))
  }

  /** One page adds its record, or none. */
  ghost predicate NextRecord(before: seq<Record>, after: seq<Record>, u: string) {
    after == before || (|after| == |before| + 1 && after[..|before|] == before && after[|before|].url == u)
  }

  lemma CrawlEnds(site: Site, start: string, limits: Limits, m: Mirror, done: set<string>, lo: nat,
                  depthOf: map<string, nat>)
    requires Crawling(site, start, limits, m, done, lo, depthOf)
    requires |m.visited| <= (if limits.maxPages < 0 then 0 else limits.maxPages)
    requires m.queue == [] || |m.visited| >= limits.maxPages
    ensures BreadthFirst(site, start, limits, m) && NoneMalformed(site, start, limits, m.visited)
    ensures TrueDepths(site, start, m, depthOf)
    ensures !MustRaise(site, start, limits)
    ensures CapLoose(site, start, limits) ==> !HasMalformedLink(site, start, limits)
  {
    CrawlDone(site, start, limits, m, done, lo, depthOf);
    SoundMeans(site, start, limits, m.visited, Horizon(limits), depthOf);
    DepthsAreTrue(site, start, Horizon(limits), m, done, lo, depthOf);
    NothingMissed(site, start, limits, m);
    if CapLoose(site, start, limits) {
      LooseRaises(site, start, limits);
    }
  }

  lemma DepthsAreTrue(site: Site, start: string, horizon: nat, m: Mirror, done: set<string>, lo: nat,
                      depthOf: map<string, nat>)
    requires QueueOk(m.queue, done, lo) && Discovered(m.queue, done, lo, depthOf)
    requires DepthsOk(site, start, horizon, depthOf) && m.visited == Hosted(site, done)
    ensures TrueDepths(site, start, m, depthOf)
  {
  }

  lemma CrawlStarts(site: Site, start: string, limits: Limits, m: Mirror)
    requires m == Mirror({}, [(start, 0)], [], map[], [], 0)
    ensures Crawling(site, start, limits, m, {}, 0, map[start := 0])
  {
    assert m.queue[0].0 == start;
  }

  /** Records a rendered page, follows its anchors and downloads its assets. */
  method VisitPage(site: Site, start: string, limits: Limits, m: Mirror, page: Page, current: string, depth: nat,
                   ghost done: set<string>, ghost depthOf0: map<string, nat>, ghost n: nat, ghost t0: Trail)
    returns (raised: bool, r: Mirror, ghost depthOf: map<string, nat>, ghost t: Trail)
    requires OnTrail(site, start, Horizon(limits), m.queue, done, n, 0, t0, current)
    requires Opened(site, start, limits, m, done, depthOf0, current, depth)
    requires site.sameHost(current) && site.fetch(current) == Some(page)
    requires |m.visited| <= limits.maxPages
    ensures raised ==> MayRaise(site, start, limits)
    ensures !raised ==> Crawling(site, start, limits, r, done, depth, depthOf) && r.visited == m.visited
    ensures !raised ==> TrailOk(site, start, Horizon(limits), r.queue, done, n, Place(n, 0), t) && t0.order <= t.order
    ensures !raised ==> r.records == m.records + [Record(current, page.file, page.html)]
  {
    var record := Record(current, page.file, page.html);
    MalformedWanted(site, start, limits, m, done, depthOf0, current, depth, page);
    AddRecord(m.localMap, m.records, m.assets, record);
    var queue, shelf;
    raised, queue, depthOf, t := ExpandPage(site, start, limits, page, current, depth, m.visited, m.queue, done,
                                            depthOf0, n, t0);
    r := m.(records := m.records + [record], localMap := m.localMap[current := page.file]);
    if !raised {
      raised, shelf := CollectAssets(site, limits, page, record, m.records, Shelf(m.assets, m.assetBytes, r.localMap));
      r := r.(queue := queue, assets := shelf.assets, assetBytes := shelf.total, localMap := shelf.localMap);
    }
    if !raised {
      PageDone(site, limits, m, current, page, depth, depthOf0, depthOf);
    }
  }

  /** The bookkeeping of a page that raised nothing. */
  lemma PageDone(site: Site, limits: Limits, m: Mirror, current: string, page: Page, depth: nat,
                 depthOf0: map<string, nat>, depthOf: map<string, nat>)
    requires current in m.visited && site.fetch(current) == Some(page)
    requires current in depthOf0 && depthOf0[current] == depth
    requires RecordsOk(site, m.visited - {current}, m.records) && RecordsByDistance(m.records, depthOf0, depth)
    requires Sound(site, limits, m.visited - {current}, depthOf0)
    requires m.visited <= depthOf0.Keys && Deeper(depthOf0, depthOf)
    requires !Malformed(page, limits, depth)
    ensures var records := m.records + [Record(current, page.file, page.html)];
            RecordsOk(site, m.visited, records) && RecordsByDistance(records, depthOf, depth)
    ensures Sound(site, limits, m.visited, depthOf)
  {
    AppendRecord(site, m.visited, m.records, current, page);
    AppendByDistance(m.records, depthOf0, depth, Record(current, page.file, page.html));
    KeepByDistance(m.records + [Record(current, page.file, page.html)], depthOf0, depthOf, depth);
    KeepSound(site, limits, m.visited - {current}, depthOf0, depthOf);
  }

  /** Follows the anchors unless the page is at the depth cap. */
  method ExpandPage(site: Site, start: string, limits: Limits, page: Page, current: string, depth: nat,
                    visited: set<string>, queue0: Queue, ghost done: set<string>, ghost depthOf0: map<string, nat>,
                    ghost n: nat, ghost t0: Trail)
    returns (raised: bool, queue: Queue, ghost depthOf: map<string, nat>, ghost t: Trail)
    requires OnTrail(site, start, Horizon(limits), queue0, done, n, 0, t0, current)
    requires CrawlInv(site, start, Horizon(limits), queue0, done, {current}, depth, depthOf0)
    requires current in done && current in depthOf0 && depthOf0[current] == depth && visited == Hosted(site, done)
    requires site.sameHost(current) && site.fetch(current) == Some(page)
    ensures raised <==> depth < limits.maxDepth && Raises in page.anchors
    ensures !raised ==> CrawlInv(site, start, Horizon(limits), queue, done, {}, depth, depthOf)
    ensures !raised ==> TrailOk(site, start, Horizon(limits), queue, done, n, Place(n, 0), t) && t0.order <= t.order
    ensures Deeper(depthOf0, depthOf)
  {
    if depth < limits.maxDepth {
      raised, queue, depthOf, t := FollowAnchors(site, start, Horizon(limits), page.anchors, current, depth, visited,
                                                 queue0, done, depthOf0, n, t0);
    } else {
      raised, queue, depthOf, t := false, queue0, depthOf0, t0;
      CloseCurrent(site, Horizon(limits), done, current, depthOf);
    }
    if !raised {
      TrailSkip(site, start, Horizon(limits), Place(n - 1, if depth < limits.maxDepth then |page.anchors| else 0),
                Place(n, 0), t);
    }
  }

  /** Downloads the assets of the page just recorded, if assets are wanted. */
  method CollectAssets(site: Site, limits: Limits, page: Page, ghost record: Record, ghost records: seq<Record>,
                       s0: Shelf)
    returns (raised: bool, s: Shelf)
    requires site.fetch(record.url) == Some(page)
    requires AssetsOk(site, limits, s0.assets, s0.total) && MapOk(s0.localMap, records + [record], s0.assets)
    requires AssetsCollected(site, limits, records, s0.assets, s0.total)
    ensures raised <==> limits.includeAssets && !Unrefused(page.assets)
    ensures !raised ==> AssetsOk(site, limits, s.assets, s.total) && MapOk(s.localMap, records + [record], s.assets)
    ensures !raised ==> AssetsCollected(site, limits, records + [record], s.assets, s.total)
  {
    raised, s := false, s0;
    if limits.includeAssets {
      raised, s := DownloadAssets(site, limits, page.assets, records + [record], s0);
    }
    if !raised {
      CollectMore(site, limits, records, s0.assets, s0.total, record, page, s.assets, s.total);
    }
  }

  /** Taking the head off the queue opens it for processing. */
  lemma PopFront(site: Site, start: string, limits: Limits, m: Mirror, done: set<string>, lo: nat,
                 depthOf: map<string, nat>)
    requires Crawling(site, start, limits, m, done, lo, depthOf) && m.queue != []
    ensures var (u, d) := m.queue[0];
            var visited := if site.sameHost(u) then m.visited + {u} else m.visited;
            && Opened(site, start, limits, m.(queue := m.queue[1..], visited := visited), done + {u}, depthOf, u, d)
            && u !in m.visited
  {
    var (u, d) := m.queue[0];
    PopQueue(m.queue, done, lo, depthOf);
    PopInv(site, start, Horizon(limits), m.queue, done, lo, depthOf);
    PopHosted(site, done, u);
    WidenByDistance(m.records, depthOf, lo, d);
  }

  lemma PopInv(site: Site, start: string, horizon: nat, queue: Queue, done: set<string>, lo: nat,
               depthOf: map<string, nat>)
    requires CrawlInv(site, start, horizon, queue, done, {}, lo, depthOf) && queue != []
    ensures var (u, d) := queue[0];
      CrawlInv(site, start, horizon, queue[1..], done + {u}, {u}, d, depthOf) && lo <= d
  {
    PopQueue(queue, done, lo, depthOf);
    PopExpanded(site, horizon, done, depthOf, queue[0].0);
  }

  lemma PopExpanded(site: Site, horizon: nat, done: set<string>, depthOf: map<string, nat>, u: string)
    requires Expanded(site, horizon, done, {}, depthOf)
    ensures Expanded(site, horizon, done + {u}, {u}, depthOf)
  {
  }

  lemma PopHosted(site: Site, done: set<string>, u: string)
    requires u !in done
    ensures var visited := if site.sameHost(u) then Hosted(site, done) + {u} else Hosted(site, done);
      Hosted(site, done + {u}) == visited && visited - {u} == Hosted(site, done) && u !in Hosted(site, done)
  {
  }

  lemma WidenByDistance(records: seq<Record>, depthOf: map<string, nat>, lo: nat, d: nat)
    requires RecordsByDistance(records, depthOf, lo) && lo <= d
    ensures RecordsByDistance(records, depthOf, d)
  {
  }

  lemma PopQueue(queue: Queue, done: set<string>, lo: nat, depthOf: map<string, nat>)
    requires QueueOk(queue, done, lo) && Discovered(queue, done, lo, depthOf) && queue != []
    ensures var (u, d) := queue[0];
            && QueueOk(queue[1..], done + {u}, d) && Discovered(queue[1..], done + {u}, d, depthOf)
            && u !in done && u in depthOf && depthOf[u] == d
  {
    var (u, d) := queue[0];
    forall v | v in depthOf && v !in done + {u}
      ensures Queued(queue[1..], v)
    {
      var i :| 0 <= i < |queue| && queue[i].0 == v;
      assert queue[1..][i - 1].0 == v;
    }
  }

  /** A page off the host, or one that did not render, has no successors and leaves no record. */
  lemma ClosePage(site: Site, start: string, limits: Limits, m: Mirror, done: set<string>,
                  depthOf: map<string, nat>, current: string, depth: nat)
    requires Opened(site, start, limits, m, done, depthOf, current, depth)
    requires !site.sameHost(current) || site.fetch(current).None?
    ensures Crawling(site, start, limits, m, done, depth, depthOf)
  {
    assert Successors(site, current) == {};
    CloseCurrent(site, Horizon(limits), done, current, depthOf);
  }

  lemma MalformedWanted(site: Site, start: string, limits: Limits, m: Mirror, done: set<string>,
                        depthOf: map<string, nat>, current: string, depth: nat, page: Page)
    requires Opened(site, start, limits, m, done, depthOf, current, depth) && |m.visited| <= limits.maxPages
    requires site.sameHost(current) && site.fetch(current) == Some(page)
    ensures Malformed(page, limits, depth) ==> MayRaise(site, start, limits)
  {
    DistanceBounds(site, start, current, depth, Horizon(limits));
    assert Wanted(site, start, limits, current);
    assert MalformedAt(site, start, limits, current, depth) <==> Malformed(page, limits, depth);
    CloserVisited(site, start, Horizon(limits), m.queue, done, depthOf, current, depth);
    assert PagesCloser(site, start, depth) <= m.visited && current in m.visited;
    ProperSubset(PagesCloser(site, start, depth), m.visited, current);
  }

  /** When a page comes off the queue, every page closer to the start is done. */
  lemma CloserVisited(site: Site, start: string, horizon: nat, queue: Queue, done: set<string>,
                      depthOf: map<string, nat>, current: string, depth: nat)
    requires CrawlInv(site, start, horizon, queue, done, {current}, depth, depthOf)
    requires current in depthOf && depthOf[current] == depth
    ensures forall v :: v in PagesCloser(site, start, depth) ==> v in done && v != current
  {
    HeadSettled(queue, done, depthOf, current, depth);
    if depth > 0 {
      forall v | v in PagesCloser(site, start, depth)
        ensures v in done && v !in {current}
      {
        CloserIsReached(site, start, depth, v);
        SettledCloser(site, start, horizon, done, {current}, depthOf, depth - 1, v);
      }
    }
  }

  lemma CloserIsReached(site: Site, start: string, depth: nat, v: string)
    requires v in PagesCloser(site, start, depth)
    ensures depth > 0 && v in Reach(site, start, depth - 1)
  {
  }

  lemma HeadSettled(queue: Queue, done: set<string>, depthOf: map<string, nat>, current: string, depth: nat)
    requires QueueOk(queue, done, depth) && Discovered(queue, done, depth, depthOf)
    requires current in depthOf && depthOf[current] == depth
    ensures Settled(done, {current}, depthOf, depth)
  {
    SettledBelow(queue, done, {current}, depth, depthOf, depth);
  }

  lemma SettledCloser(site: Site, start: string, horizon: nat, done: set<string>, open: set<string>,
                      depthOf: map<string, nat>, j: nat, v: string)
    requires DepthsOk(site, start, horizon, depthOf) && Expanded(site, horizon, done, open, depthOf)
    requires Settled(done, open, depthOf, j + 1) && j < horizon && v in Reach(site, start, j)
    ensures v in done && v !in open
  {
    SettledLess(done, open, depthOf, j + 1);
    DiscoveredWithin(site, start, horizon, done, open, depthOf, j, v);
    KnownCloser(site, start, horizon, done, open, depthOf, j, v);
  }

  lemma SettledLess(done: set<string>, open: set<string>, depthOf: map<string, nat>, k: nat)
    requires Settled(done, open, depthOf, k) && 0 < k
    ensures Settled(done, open, depthOf, k - 1)
  {
  }

  lemma DiscoveredWithin(site: Site, start: string, horizon: nat, done: set<string>, open: set<string>,
                         depthOf: map<string, nat>, k: nat, v: string)
    requires DepthsOk(site, start, horizon, depthOf) && Expanded(site, horizon, done, open, depthOf)
    requires Settled(done, open, depthOf, k) && k <= horizon && v in Reach(site, start, k)
    ensures v in depthOf
  {
    Frontier(site, start, horizon, done, open, depthOf, k);
  }

  lemma KnownCloser(site: Site, start: string, horizon: nat, done: set<string>, open: set<string>,
                    depthOf: map<string, nat>, j: nat, v: string)
    requires DepthsOk(site, start, horizon, depthOf) && Settled(done, open, depthOf, j + 1)
    requires v in depthOf && v in Reach(site, start, j)
    ensures v in done && v !in open
  {
    DistanceBounds(site, start, v, depthOf[v], j);
  }

  lemma KeepSound(site: Site, limits: Limits, visited: set<string>, depthOf: map<string, nat>, deeper: map<string, nat>)
    requires Sound(site, limits, visited, depthOf) && visited <= depthOf.Keys
    requires Deeper(depthOf, deeper)
    ensures Sound(site, limits, visited, deeper)
  {
  }

  lemma SoundMeans(site: Site, start: string, limits: Limits, visited: set<string>, horizon: nat, depthOf: map<string,
                   nat>)
    requires Sound(site, limits, visited, depthOf) && visited <= depthOf.Keys
    requires DepthsOk(site, start, horizon, depthOf)
    ensures NoneMalformed(site, start, limits, visited)
  {
    forall u, d | u in visited && Distance(site, start, u, d)
      ensures depthOf[u] == d
    {
      DistanceUnique(site, start, u, d, depthOf[u]);
    }
  }

  lemma DistanceUnique(site: Site, start: string, u: string, d: nat, e: nat)
    requires Distance(site, start, u, d) && Distance(site, start, u, e)
    ensures d == e
  {
    DistanceBounds(site, start, u, d, d);
    DistanceBounds(site, start, u, d, e);
    DistanceBounds(site, start, u, e, d);
    DistanceBounds(site, start, u, e, e);
  }

  lemma AppendByDistance(records: seq<Record>, depthOf: map<string, nat>, depth: nat, record: Record)
    requires RecordsByDistance(records, depthOf, depth) && record.url in depthOf && depthOf[record.url] == depth
    ensures RecordsByDistance(records + [record], depthOf, depth)
  {
  }

  lemma KeepByDistance(records: seq<Record>, depthOf: map<string, nat>, deeper: map<string, nat>, depth: nat)
    requires RecordsByDistance(records, depthOf, depth)
    requires Deeper(depthOf, deeper)
    ensures RecordsByDistance(records, deeper, depth)
  {
  }

  lemma AppendRecord(site: Site, visited: set<string>, records: seq<Record>, current: string, page: Page)
    requires current in visited && site.fetch(current) == Some(page)
    requires RecordsOk(site, visited - {current}, records)
    ensures RecordsOk(site, visited, records + [Record(current, page.file, page.html)])
  {
    var records' := records + [Record(current, page.file, page.html)];
    forall u | u in visited && site.fetch(u).Some?
      ensures exists i :: 0 <= i < |records'| && records'[i].url == u
    {
      if u == current {
        assert records'[|records|].url == u;
      } else {
        var i :| 0 <= i < |records| && records[i].url == u;
        assert records'[i].url == u;
      }
    }
  }

  /** What the queue invariant says once the loop stops. */
  lemma CrawlDone(site: Site, start: string, limits: Limits, m: Mirror, done: set<string>, lo: nat,
                  depthOf: map<string, nat>)
    requires CrawlInv(site, start, Horizon(limits), m.queue, done, {}, lo, depthOf)
    requires m.visited == Hosted(site, done)
    requires |m.visited| <= (if limits.maxPages < 0 then 0 else limits.maxPages)
    requires m.queue == [] || |m.visited| >= limits.maxPages
    requires RecordsByDistance(m.records, depthOf, lo)
    ensures BreadthFirst(site, start, limits, m)
  {
    var horizon := Horizon(limits);
    forall u | u in m.visited
      ensures Wanted(site, start, limits, u)
    {
      DistanceBounds(site, start, u, depthOf[u], horizon);
    }
    if m.queue == [] {
      SettledBelow(m.queue, done, {}, lo, depthOf, horizon);
      Frontier(site, start, horizon, done, {}, depthOf, horizon);
    }
    forall u, v, k: nat | u in m.visited && v !in m.visited && site.sameHost(v) &&
      k <= horizon && v in Reach(site, start, k)
      ensures u in Reach(site, start, k)
    {
      NothingCloser(site, start, horizon, m.queue, done, lo, depthOf, u, v, k);
    }
    forall i, j, k: nat | 0 <= i < j < |m.records| && m.records[j].url in Reach(site, start, k)
      ensures m.records[i].url in Reach(site, start, k)
    {
      DistanceBounds(site, start, m.records[i].url, depthOf[m.records[i].url], k);
      DistanceBounds(site, start, m.records[j].url, depthOf[m.records[j].url], k);
    }
  }

  lemma NothingCloser(site: Site, start: string, horizon: nat, queue: Queue, done: set<string>, lo: nat,
                      depthOf: map<string, nat>, u: string, v: string, k: nat)
    requires CrawlInv(site, start, horizon, queue, done, {}, lo, depthOf)
    requires u in done && v !in done && k <= horizon && v in Reach(site, start, k)
    ensures u in Reach(site, start, k)
  {
    DistanceBounds(site, start, u, depthOf[u], k);
    if k < depthOf[u] {
      SettledBelow(queue, done, {}, lo, depthOf, k + 1);
      Frontier(site, start, horizon, done, {}, depthOf, k);
      DistanceBounds(site, start, v, depthOf[v], k);
      assert false;
    }
  }
}
