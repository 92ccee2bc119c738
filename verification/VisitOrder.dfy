/**
 The order in which a breadth-first crawl discovers pages: by the page a link is first found on, and on that page
 by the place of the link.  A site has one such order.
 */
module VisitOrder {
  import opened CrawlUrl
  import opened SiteGraph
  import opened Options

  /** Where a link stands: the position of its page in the order, and its position among the anchors of that page. */
  datatype Place = Place(page: nat, anchor: nat)

  predicate Sooner(p: Place, q: Place) {
    p.page < q.page || (p.page == q.page && p.anchor < q.anchor)
  }

  function Anchors(site: Site, u: string): seq<Normalized> {
    if site.sameHost(u) && site.fetch(u).Some? then site.fetch(u).value.anchors else []
  }

  /** At this place the pages in `order` link to `v`. */
  ghost predicate LinkAt(site: Site, order: seq<string>, p: Place, v: string) {
    && p.page < |order| && p.anchor < |Anchors(site, order[p.page])|
    && Anchors(site, order[p.page])[p.anchor] == Url(v) && site.sameHost(v)
  }

  /** And nowhere sooner. */
  ghost predicate FirstLink(site: Site, order: seq<string>, p: Place, v: string) {
    LinkAt(site, order, p, v) &&
    forall q {:trigger LinkAt(site, order, q, v)} :: LinkAt(site, order, q, v) ==> q == p || Sooner(p, q)
  }

  ghost predicate Distinct(order: seq<string>) {
    forall i, j :: 0 <= i < j < |order| ==> order[i] != order[j]
  }

  /** The page is close enough for its links to be followed. */
  ghost predicate Followable(site: Site, start: string, horizon: nat, u: string) {
    horizon > 0 && u in Reach(site, start, horizon - 1)
  }

  /** Every page but the first was found on an earlier page, among the first `n`, whose links are followed. */
  ghost predicate FoundAt(site: Site, start: string, horizon: nat, order: seq<string>, n: nat, j: nat, p: Place) {
    j < |order| && p.page < j && p.page < n && FirstLink(site, order, p, order[j])
    && Followable(site, start, horizon, order[p.page])
  }

  ghost predicate AllFound(site: Site, start: string, horizon: nat, order: seq<string>, n: nat) {
    forall j {:trigger Found(site, start, horizon, order, n, j)} ::
      0 < j < |order| ==> Found(site, start, horizon, order, n, j)
  }

  ghost predicate Found(site: Site, start: string, horizon: nat, order: seq<string>, n: nat, j: nat) {
    exists p :: FoundAt(site, start, horizon, order, n, j, p)
  }

  /** Of two pages the one whose first link stands sooner comes first. */
  ghost predicate InLinkOrder(site: Site, order: seq<string>) {
    forall j, k, p, q {:trigger FirstLink(site, order, p, order[j]), FirstLink(site, order, q, order[k])} ::
      0 < j < |order| && 0 < k < |order| && FirstLink(site, order, p, order[j]) && FirstLink(site, order, q, order[k])
      ==> (j < k <==> Sooner(p, q))
  }

  /** Every link of the first `n` pages is in the order. */
  ghost predicate LinksIn(site: Site, start: string, horizon: nat, order: seq<string>, n: nat) {
    forall i, v {:trigger v in Successors(site, order[i])} ::
      0 <= i < n && i < |order| && Followable(site, start, horizon, order[i]) && v in Successors(site, order[i]) ==>
        v in order
  }

  /** The pages in order of discovery, after the links of the first `n` were followed. */
  ghost predicate Discovers(site: Site, start: string, horizon: nat, order: seq<string>, n: nat) {
    && n <= |order| && order != [] && order[0] == start && Distinct(order)
    && AllFound(site, start, horizon, order, n) && InLinkOrder(site, order)
    && LinksIn(site, start, horizon, order, n)
  }

  // ---------- a site has one such order ----------

  lemma LinkIsSuccessor(site: Site, order: seq<string>, p: Place, v: string)
    requires LinkAt(site, order, p, v)
    ensures v in Successors(site, order[p.page])
  {
    assert Anchors(site, order[p.page])[p.anchor].text == v;
  }

  /** First links depend on the pages in front of the linked one only. */
  lemma FirstLinkAgrees(site: Site, a: seq<string>, b: seq<string>, j: nat, p: Place, v: string)
    requires j <= |a| && j <= |b| && a[..j] == b[..j] && p.page < j && FirstLink(site, a, p, v)
    ensures FirstLink(site, b, p, v)
  {
    assert forall i :: 0 <= i < j ==> a[i] == a[..j][i] == b[..j][i] == b[i];
    forall q | LinkAt(site, b, q, v)
      ensures q == p || Sooner(p, q)
    {
      if q.page < j {
        assert LinkAt(site, a, q, v);
      }
    }
    assert LinkAt(site, b, p, v);
  }

  /** What comes next in one order is in the other, not before the same place. */
  lemma NextIsLater(site: Site, start: string, horizon: nat, a: seq<string>, m: nat, b: seq<string>, n: nat, j: nat,
                    p: Place) returns (k: nat)
    requires j < |a| && j <= |b| && a[..j] == b[..j] && Distinct(a) && FoundAt(site, start, horizon, a, m, j, p)
    requires p.page < n && LinksIn(site, start, horizon, b, n)
    ensures j <= k < |b| && b[k] == a[j]
  {
    PrefixAt(a, b, j, p.page);
    LinkIsSuccessor(site, a, p, a[j]);
    assert a[j] in Successors(site, b[p.page]) && a[j] in b;
    k :| 0 <= k < |b| && b[k] == a[j];
    if k < j {
      PrefixAt(a, b, j, k);
      assert false;
    }
  }

  lemma PrefixAt(a: seq<string>, b: seq<string>, j: nat, k: nat)
    requires j <= |a| && j <= |b| && a[..j] == b[..j] && k < j
    ensures a[k] == b[k]
  {
    assert a[k] == a[..j][k];
  }

  /** Where two orders part, the page the second goes on with has the sooner first link. */
  lemma PartSooner(site: Site, start: string, horizon: nat, a: seq<string>, m: nat, b: seq<string>, n: nat, j: nat,
                   p: Place, q: Place)
    requires 0 < j < |a| && j < |b| && a[..j] == b[..j] && Distinct(a) && FoundAt(site, start, horizon, a, m, j, p)
    requires FoundAt(site, start, horizon, b, n, j, q) && a[j] != b[j]
    requires p.page < n && LinksIn(site, start, horizon, b, n) && InLinkOrder(site, b)
    ensures Sooner(q, p)
  {
    var k := NextIsLater(site, start, horizon, a, m, b, n, j, p);
    FirstLinkAgrees(site, a, b, j, p, b[k]);
    assert j < k;
  }

  lemma AgreeNext(site: Site, start: string, horizon: nat, a: seq<string>, m: nat, b: seq<string>, n: nat, j: nat)
    requires Discovers(site, start, horizon, a, m) && Discovers(site, start, horizon, b, n) && m <= n
    requires 0 < j < |a| && j <= |b| && a[..j] == b[..j]
    ensures j < |b| && a[j] == b[j]
  {
    assert Found(site, start, horizon, a, m, j);
    var p :| FoundAt(site, start, horizon, a, m, j, p);
    var k := NextIsLater(site, start, horizon, a, m, b, n, j, p);
    if a[j] != b[j] {
      assert Found(site, start, horizon, b, n, j);
      var q :| FoundAt(site, start, horizon, b, n, j, q);
      PartSooner(site, start, horizon, a, m, b, n, j, p, q);
      PartSooner(site, start, horizon, b, n, a, m, j, q, p);
      assert false;
    }
  }

  lemma PrefixNext(a: seq<string>, b: seq<string>, j: nat)
    requires j < |a| && j < |b| && a[..j] == b[..j] && a[j] == b[j]
    ensures a[..j + 1] == b[..j + 1]
  {
    assert a[..j + 1] == a[..j] + [a[j]] && b[..j + 1] == b[..j] + [b[j]];
  }

  lemma {:induction false} Agree(site: Site, start: string, horizon: nat, a: seq<string>, m: nat, b: seq<string>,
                                 n: nat, j: nat)
    requires Discovers(site, start, horizon, a, m) && Discovers(site, start, horizon, b, n) && m <= n && j <= |a|
    ensures j <= |b| && a[..j] == b[..j]
  {
    if j > 1 {
      Agree(site, start, horizon, a, m, b, n, j - 1);
      AgreeNext(site, start, horizon, a, m, b, n, j - 1);
      PrefixNext(a, b, j - 1);
    }
  }

  /** When every page was followed, nothing more is found. */
  lemma OrderComplete(site: Site, start: string, horizon: nat, a: seq<string>, b: seq<string>, n: nat)
    requires Discovers(site, start, horizon, a, |a|) && Discovers(site, start, horizon, b, n) && a <= b
    ensures a == b
  {
    if |a| < |b| {
      assert Found(site, start, horizon, b, n, |a|);
      var p :| FoundAt(site, start, horizon, b, n, |a|, p);
      assert b[..|a|] == a[..|a|];
      var _ := NextIsLater(site, start, horizon, b, n, a, |a|, |a|, p);
      assert false;
    }
  }

  /** The order after more pages only extends the order after fewer; after equally many it is the same. */
  lemma OrderUnique(site: Site, start: string, horizon: nat, a: seq<string>, m: nat, b: seq<string>, n: nat)
    requires Discovers(site, start, horizon, a, m) && Discovers(site, start, horizon, b, n) && m <= n
    ensures a <= b && (m == n ==> a == b)
  {
    Agree(site, start, horizon, a, m, b, n, |a|);
    assert a[..|a|] == a;
    if m == n {
      Agree(site, start, horizon, b, n, a, m, |b|);
      assert b[..|b|] == b;
    }
  }
}
