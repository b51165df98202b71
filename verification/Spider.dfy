/** The spider of internal/enumerator/spider.go: a breadth-first crawl over page
    strings with a depth limit and a cap on the number of pages. */
module Spider {
  import opened Text

  /** The crawled site, fixed: `crawl` gives the raw links of a page (None: the
      page cannot be fetched), `page` the normalised page of a link (None: it does
      not parse or leaves the domain). */
  datatype Site = Site(crawl: string -> Option<seq<string>>, page: string -> Option<string>)

  datatype Crawl = Crawl(depth: map<string, int>, results: seq<string>)

  /** A page that cannot be fetched has no links. */
  function RawLinks(site: Site, p: string): seq<string> {
    match site.crawl(p) case Some(links) => links case None => []
  }

  /** Crawling `p` gives a link to `q`. */
  ghost predicate Links(site: Site, p: string, q: string) {
    site.crawl(p).Some? && exists raw :: raw in site.crawl(p).value && site.page(raw) == Some(q)
  }

  // -------------------------------------------------------------------------
  // The crawl.
  // -------------------------------------------------------------------------

  predicate CapReached(maxPages: int, results: seq<string>) {
    maxPages > 0 && |results| >= maxPages
  }

  function Add(s: Crawl, p: string, depth: int): Crawl {
    Crawl(s.depth[p := depth], s.results + [p])
  }

  /** Takes in the links from the `i`-th on. */
  function Append(site: Site, maxPages: int, s: Crawl, raws: seq<string>, i: nat, lastDepth: int): Crawl
    requires i <= |raws|
    decreases |raws| - i
  {
    if i == |raws| || CapReached(maxPages, s.results) then s
    else
      match site.page(raws[i])
      case Some(p) =>
        if p in s.depth then Append(site, maxPages, s, raws, i + 1, lastDepth)
        else Append(site, maxPages, Add(s, p, lastDepth + 1), raws, i + 1, lastDepth)
      case None => Append(site, maxPages, s, raws, i + 1, lastDepth)
  }

  /** The crawl after the links of `page` are taken in. */
  function Visit(site: Site, maxPages: int, s: Crawl, page: string): Crawl
    requires page in s.depth
  {
    Append(site, maxPages, s, RawLinks(site, page), 0, s.depth[page])
  }

  function Start(root: string): Crawl {
    Crawl(map[root := 0], [root])
  }

  /** The crawl after the first `k` pages of the queue are crawled. */
  function After(site: Site, root: string, maxPages: int, k: nat): Crawl {
    if k == 0 then Start(root)
    else
      var s := After(site, root, maxPages, k - 1);
      if k - 1 < |s.results| && s.results[k - 1] in s.depth then Visit(site, maxPages, s, s.results[k - 1]) else s
  }

  /** There is a page to crawl, it is neither beyond the cap nor too deep, and it is not
      a root that cannot be fetched. */
  predicate GoesOn(site: Site, maxDepth: int, maxPages: int, s: Crawl, curr: nat) {
    && curr < |s.results|
    && !(maxPages > 0 && curr >= maxPages)
    && s.results[curr] in s.depth && s.depth[s.results[curr]] <= maxDepth
    && (curr == 0 ==> site.crawl(s.results[0]).Some?)
  }

  ghost predicate Runs(site: Site, root: string, maxDepth: int, maxPages: int, k: nat) {
    k == 0 || (Runs(site, root, maxDepth, maxPages, k - 1) && GoesOn(site, maxDepth, maxPages, After(site, root, maxPages, k - 1), k - 1))
  }

  /** A whole run: `k` pages are crawled, and then it stops. */
  ghost predicate Finishes(site: Site, root: string, maxDepth: int, maxPages: int, k: nat) {
    Runs(site, root, maxDepth, maxPages, k) && !GoesOn(site, maxDepth, maxPages, After(site, root, maxPages, k), k)
  }

  predicate RootFails(site: Site, root: string, maxDepth: int) {
    0 <= maxDepth && site.crawl(root).None?
  }

  class SpiderHelper {
    const site: Site
    const root: string
    const maxDepth: int
    const maxPages: int
    var depth: map<string, int>
    var results: seq<string>

    constructor (site: Site, root: string, maxDepth: int, maxPages: int)
      ensures this.site == site && this.root == root && this.maxDepth == maxDepth && this.maxPages == maxPages
      ensures Found() == Start(root)
    {
      this.site, this.root, this.maxDepth, this.maxPages := site, root, maxDepth, maxPages;
      depth, results := map[root := 0], [root];
    }

    function Found(): Crawl
      reads this
    {
      Crawl(depth, results)
    }

    method AppendPages(pages: seq<string>, lastDepth: int)
      modifies this
      ensures Found() == Append(site, maxPages, old(Found()), pages, 0, lastDepth)
    {
      for i := 0 to |pages|
        invariant Append(site, maxPages, Found(), pages, i, lastDepth) == Append(site, maxPages, old(Found()), pages, 0, lastDepth)
      {
        if CapReached(maxPages, results) { return; }
        var page := site.page(pages[i]);
        if page.None? { continue; }
        if page.value !in depth {
          depth := depth[page.value := lastDepth + 1];
          results := results + [page.value];
        }
      }
    }

    method Run() returns (ok: bool, crawled: nat)
      requires Found() == Start(root)
      modifies this
      ensures Finishes(site, root, maxDepth, maxPages, crawled)
      ensures Found() == After(site, root, maxPages, crawled)
      ensures ok <==> maxDepth < 0 || site.crawl(root).Some?
    {
      ghost var all := NearPages(site, root, Horizon(maxDepth));
      crawled := 0;
      while crawled < |results|
        invariant Runs(site, root, maxDepth, maxPages, crawled) && Found() == After(site, root, maxPages, crawled)
        invariant crawled > 0 ==> !RootFails(site, root, maxDepth)
        decreases |all| - crawled
      {
        ghost var s := Found();
        QueueIsFound(site, root, maxDepth, maxPages, crawled);
        if maxPages > 0 && crawled >= maxPages { break; }
        var page := results[crawled];
        if depth[page] > maxDepth { break; }
        var links := site.crawl(page);
        if links.None? && crawled == 0 { return false, crawled; }
        RunsOn(site, root, maxDepth, maxPages, crawled, s);
        RunIsBounded(site, root, maxDepth, maxPages, crawled + 1, all);
        var pages := if links.Some? then links.value else [];
        assert pages == RawLinks(site, page);
        AppendPages(pages, depth[page]);
        assert Found() == Append(site, maxPages, s, pages, 0, s.depth[page]);
        crawled := crawled + 1;
      }
      ok := true;
    }
  }

  // -------------------------------------------------------------------------
  // Distance from the root.
  // -------------------------------------------------------------------------

  /** At most `k` links away from the root. */
  ghost predicate Within(site: Site, root: string, p: string, k: nat)
    decreases k
  {
    if k == 0 then p == root
    else Within(site, root, p, k - 1) || exists q :: Within(site, root, q, k - 1) && Links(site, q, p)
  }

  /** `k` is the number of links of a shortest walk from the root. */
  ghost predicate IsDistance(site: Site, root: string, p: string, k: int) {
    k >= 0 && Within(site, root, p, k) && (k > 0 ==> !Within(site, root, p, k - 1))
  }

  lemma {:induction false} WithinGrows(site: Site, root: string, p: string, j: nat, k: nat)
    requires j <= k && Within(site, root, p, j)
    ensures Within(site, root, p, k)
  {
    if j < k { WithinGrows(site, root, p, j, k - 1); }
  }

  lemma OneLinkFurther(site: Site, root: string, k: nat, page: string, raw: string, p: string)
    requires Within(site, root, page, k) && raw in RawLinks(site, page) && site.page(raw) == Some(p)
    ensures Within(site, root, p, k + 1)
  {
    assert Links(site, page, p);
  }

  /** A walk along links from the root to `p`, of at most `k` links. */
  ghost predicate Walk(site: Site, root: string, p: string, k: nat, walk: seq<string>) {
    && 0 < |walk| <= k + 1 && walk[0] == root && walk[|walk| - 1] == p
    && forall i :: 0 <= i < |walk| - 1 ==> Links(site, walk[i], walk[i + 1])
  }

  lemma WalkOneFurther(site: Site, root: string, q: string, p: string, k: nat, walk: seq<string>)
    requires Walk(site, root, q, k, walk) && Links(site, q, p)
    ensures Walk(site, root, p, k + 1, walk + [p])
  {}

  /** `Within(k)` is what walks of at most `k` links reach. */
  lemma {:induction false} WithinHasWalk(site: Site, root: string, p: string, k: nat) returns (walk: seq<string>)
    requires Within(site, root, p, k)
    ensures Walk(site, root, p, k, walk)
    decreases k
  {
    if k == 0 {
      walk := [root];
    } else if Within(site, root, p, k - 1) {
      walk := WithinHasWalk(site, root, p, k - 1);
    } else {
      var q :| Within(site, root, q, k - 1) && Links(site, q, p);
      walk := WithinHasWalk(site, root, q, k - 1);
      WalkOneFurther(site, root, q, p, k - 1, walk);
      walk := walk + [p];
    }
  }

  lemma {:induction false} WalkIsWithin(site: Site, root: string, p: string, k: nat, walk: seq<string>)
    requires Walk(site, root, p, k, walk)
    ensures Within(site, root, p, k)
    decreases k
  {
    if |walk| <= k {
      WalkIsWithin(site, root, p, k - 1, walk);
    } else if k > 0 {
      var i := |walk| - 2;
      assert Links(site, walk[i], walk[i + 1]);
      WalkIsWithin(site, root, walk[i], k - 1, walk[..i + 1]);
    }
  }

  // -------------------------------------------------------------------------
  // Finitely many pages are near the root.
  // -------------------------------------------------------------------------

  ghost function Pages(site: Site, raws: seq<string>, i: nat): set<string>
    requires i <= |raws|
    decreases |raws| - i
  {
    if i == |raws| then {}
    else (match site.page(raws[i]) case Some(q) => {q} case None => {}) + Pages(site, raws, i + 1)
  }

  lemma {:induction false} PagesHold(site: Site, raws: seq<string>, i: nat, j: nat)
    requires i <= j < |raws| && site.page(raws[j]).Some?
    ensures site.page(raws[j]).value in Pages(site, raws, i)
    decreases |raws| - i
  {
    if i < j { PagesHold(site, raws, i + 1, j); }
  }

  lemma {:induction false} NearPages(site: Site, root: string, k: nat) returns (all: set<string>)
    ensures forall p :: Within(site, root, p, k) ==> p in all
  {
    if k == 0 {
      all := {root};
    } else {
      var near := NearPages(site, root, k - 1);
      all := near + set p, q | p in near && q in Pages(site, RawLinks(site, p), 0) :: q;
      forall p | Within(site, root, p, k) ensures p in all {
        if !Within(site, root, p, k - 1) {
          var q :| Within(site, root, q, k - 1) && Links(site, q, p);
          var j :| 0 <= j < |RawLinks(site, q)| && site.page(RawLinks(site, q)[j]) == Some(p);
          PagesHold(site, RawLinks(site, q), 0, j);
        }
      }
    }
  }

  // -------------------------------------------------------------------------
  // Soundness of what is found, with or without a cap.
  // -------------------------------------------------------------------------

  /** How far from the root a page can be that is found. */
  function Horizon(maxDepth: int): nat {
    if maxDepth < 0 then 0 else maxDepth + 1
  }

  ghost predicate NoDuplicates(t: seq<string>) {
    forall i, j :: 0 <= i < j < |t| ==> t[i] != t[j]
  }

  ghost predicate Sound(site: Site, root: string, maxDepth: int, s: Crawl) {
    && NoDuplicates(s.results) && (forall p :: p in s.depth <==> p in s.results)
    && s.results != [] && s.results[0] == root && s.depth[root] == 0
    && (forall p :: p in s.depth ==> 0 <= s.depth[p] <= Horizon(maxDepth) && Within(site, root, p, s.depth[p]))
  }

  lemma StartSound(site: Site, root: string, maxDepth: int)
    ensures Sound(site, root, maxDepth, Start(root))
  {}

  lemma {:induction false} DistinctFit(t: seq<string>, all: set<string>)
    requires NoDuplicates(t) && forall p :: p in t ==> p in all
    ensures |t| <= |all|
  {
    if t != [] {
      var front, last := t[..|t| - 1], t[|t| - 1];
      assert t == front + [last] && last in t;
      DistinctFit(front, all - {last});
    }
  }

  lemma ResultsFit(site: Site, root: string, maxDepth: int, s: Crawl, all: set<string>)
    requires Sound(site, root, maxDepth, s)
    requires forall p :: Within(site, root, p, Horizon(maxDepth)) ==> p in all
    ensures |s.results| <= |all|
  {
    forall p | p in s.results ensures p in all {
      WithinGrows(site, root, p, s.depth[p], Horizon(maxDepth));
    }
    DistinctFit(s.results, all);
  }

  lemma OneMoreSound(site: Site, root: string, maxDepth: int, s: Crawl, page: string, raw: string, p: string)
    requires Sound(site, root, maxDepth, s) && page in s.depth && s.depth[page] <= maxDepth
    requires raw in RawLinks(site, page) && site.page(raw) == Some(p) && p !in s.depth
    ensures Sound(site, root, maxDepth, Add(s, p, s.depth[page] + 1))
  {
    OneLinkFurther(site, root, s.depth[page], page, raw, p);
  }

  ghost predicate Extends(s: Crawl, s': Crawl) {
    && s.results <= s'.results
    && (forall p :: p in s.depth ==> p in s'.depth && s'.depth[p] == s.depth[p])
    && (|s'.results| == |s.results| ==> s' == s)
  }

  lemma {:induction false} AppendExtends(site: Site, maxPages: int, s: Crawl, raws: seq<string>, i: nat, lastDepth: int)
    requires i <= |raws|
    ensures Extends(s, Append(site, maxPages, s, raws, i, lastDepth))
    decreases |raws| - i
  {
    if i < |raws| && !CapReached(maxPages, s.results) {
      var next := site.page(raws[i]);
      if next.Some? && next.value !in s.depth {
        AppendExtends(site, maxPages, Add(s, next.value, lastDepth + 1), raws, i + 1, lastDepth);
      } else {
        AppendExtends(site, maxPages, s, raws, i + 1, lastDepth);
      }
    }
  }

  /** Induction over a page's links: what every new page keeps, the whole page keeps. */
  lemma {:induction false} AppendKeeps(
    site: Site, maxPages: int, inv: Crawl -> bool, s: Crawl, raws: seq<string>, i: nat, lastDepth: int)
    requires i <= |raws| && inv(s)
    requires forall t: Crawl, raw: string {:trigger inv(Add(t, site.page(raw).value, lastDepth + 1))} ::
               inv(t) && raw in raws && site.page(raw).Some? && site.page(raw).value !in t.depth
               ==> inv(Add(t, site.page(raw).value, lastDepth + 1))
    ensures inv(Append(site, maxPages, s, raws, i, lastDepth))
    decreases |raws| - i
  {
    if i < |raws| && !CapReached(maxPages, s.results) {
      var next := site.page(raws[i]);
      if next.Some? && next.value !in s.depth {
        AppendKeeps(site, maxPages, inv, Add(s, next.value, lastDepth + 1), raws, i + 1, lastDepth);
      } else {
        AppendKeeps(site, maxPages, inv, s, raws, i + 1, lastDepth);
      }
    }
  }

  ghost predicate SoundAt(site: Site, root: string, maxDepth: int, page: string, d: int, s: Crawl, t: Crawl) {
    Sound(site, root, maxDepth, t) && s.results <= t.results && page in t.depth && t.depth[page] == d
  }

  lemma OneMoreSoundAt(
    site: Site, root: string, maxDepth: int, page: string, d: int, s: Crawl, t: Crawl, raw: string, p: string)
    requires SoundAt(site, root, maxDepth, page, d, s, t) && d <= maxDepth
    requires raw in RawLinks(site, page) && site.page(raw) == Some(p) && p !in t.depth
    ensures SoundAt(site, root, maxDepth, page, d, s, Add(t, p, d + 1))
  {
    OneMoreSound(site, root, maxDepth, t, page, raw, p);
  }

  lemma PageIsSound(site: Site, root: string, maxDepth: int, maxPages: int, page: string, d: int, s: Crawl)
    requires SoundAt(site, root, maxDepth, page, d, s, s) && d <= maxDepth
    ensures SoundAt(site, root, maxDepth, page, d, s, Append(site, maxPages, s, RawLinks(site, page), 0, d))
  {
    var raws := RawLinks(site, page);
    var inv := (t: Crawl) => SoundAt(site, root, maxDepth, page, d, s, t);
    forall t: Crawl, raw: string | inv(t) && raw in raws && site.page(raw).Some? && site.page(raw).value !in t.depth
      ensures inv(Add(t, site.page(raw).value, d + 1))
    {
      OneMoreSoundAt(site, root, maxDepth, page, d, s, t, raw, site.page(raw).value);
    }
    AppendKeeps(site, maxPages, inv, s, raws, 0, d);
  }

  lemma VisitSound(site: Site, root: string, maxDepth: int, maxPages: int, s: Crawl, page: string)
    requires Sound(site, root, maxDepth, s) && page in s.depth && s.depth[page] <= maxDepth
    ensures var s' := Visit(site, maxPages, s, page);
            Sound(site, root, maxDepth, s') && s.results <= s'.results
  {
    PageIsSound(site, root, maxDepth, maxPages, page, s.depth[page], s);
  }

  /** Induction over a run. */
  lemma {:induction false} RunKeeps(
    site: Site, root: string, maxDepth: int, maxPages: int, inv: (Crawl, nat) -> bool, k: nat)
    requires Runs(site, root, maxDepth, maxPages, k) && inv(Start(root), 0)
    requires forall s: Crawl, j: nat {:trigger GoesOn(site, maxDepth, maxPages, s, j)} ::
               inv(s, j) && GoesOn(site, maxDepth, maxPages, s, j) ==> inv(Visit(site, maxPages, s, s.results[j]), j + 1)
    ensures inv(After(site, root, maxPages, k), k)
  {
    if k > 0 {
      RunKeeps(site, root, maxDepth, maxPages, inv, k - 1);
      assert GoesOn(site, maxDepth, maxPages, After(site, root, maxPages, k - 1), k - 1);
    }
  }

  lemma RunsSound(site: Site, root: string, maxDepth: int, maxPages: int, k: nat)
    requires Runs(site, root, maxDepth, maxPages, k)
    ensures Sound(site, root, maxDepth, After(site, root, maxPages, k)) && k <= |After(site, root, maxPages, k).results|
  {
    var inv := (s: Crawl, j: nat) => Sound(site, root, maxDepth, s) && j <= |s.results|;
    StartSound(site, root, maxDepth);
    forall s: Crawl, j: nat | inv(s, j) && GoesOn(site, maxDepth, maxPages, s, j)
      ensures inv(Visit(site, maxPages, s, s.results[j]), j + 1)
    {
      VisitSound(site, root, maxDepth, maxPages, s, s.results[j]);
    }
    RunKeeps(site, root, maxDepth, maxPages, inv, k);
  }

  lemma QueueIsFound(site: Site, root: string, maxDepth: int, maxPages: int, k: nat)
    requires Runs(site, root, maxDepth, maxPages, k)
    ensures var s := After(site, root, maxPages, k);
            (k < |s.results| ==> s.results[k] in s.depth) && (k == 0 ==> s.results[0] == root && s.depth[root] == 0)
  {
    RunsSound(site, root, maxDepth, maxPages, k);
  }

  /** Every crawl comes to an end: it crawls no more pages than there are near the root. */
  lemma RunIsBounded(site: Site, root: string, maxDepth: int, maxPages: int, k: nat, all: set<string>)
    requires Runs(site, root, maxDepth, maxPages, k)
    requires forall p :: Within(site, root, p, Horizon(maxDepth)) ==> p in all
    ensures k <= |all|
  {
    RunsSound(site, root, maxDepth, maxPages, k);
    ResultsFit(site, root, maxDepth, After(site, root, maxPages, k), all);
  }

  lemma RunsOn(site: Site, root: string, maxDepth: int, maxPages: int, k: nat, s: Crawl)
    requires Runs(site, root, maxDepth, maxPages, k) && s == After(site, root, maxPages, k)
    requires GoesOn(site, maxDepth, maxPages, s, k)
    ensures Runs(site, root, maxDepth, maxPages, k + 1)
    ensures k < |s.results| && s.results[k] in s.depth
    ensures After(site, root, maxPages, k + 1) == Append(site, maxPages, s, RawLinks(site, s.results[k]), 0, s.depth[s.results[k]])
  {}

  // -------------------------------------------------------------------------
  // Without a cap: breadth first.
  // -------------------------------------------------------------------------

  ghost predicate ByDepth(s: Crawl)
    requires forall p :: p in s.results ==> p in s.depth
  {
    forall i, j :: 0 <= i < j < |s.results| ==> s.depth[s.results[i]] <= s.depth[s.results[j]]
  }

  ghost predicate Exact(site: Site, root: string, s: Crawl) {
    forall p :: p in s.depth ==> IsDistance(site, root, p, s.depth[p])
  }

  ghost predicate LinksIn(site: Site, s: Crawl, page: string) {
    forall q :: Links(site, page, q) ==> q in s.depth
  }

  ghost predicate AllIn(site: Site, root: string, s: Crawl, k: nat) {
    forall q :: Within(site, root, q, k) ==> q in s.depth
  }

  /** The queue: pages come in the order of their exact depths, nothing is more than one
      level below the page at `curr`, and the links of all pages before it are in. */
  ghost predicate Layered(site: Site, root: string, s: Crawl, curr: nat)
    requires forall p :: p in s.results ==> p in s.depth
  {
    && ByDepth(s)
    && Exact(site, root, s)
    && (curr < |s.results| ==> forall p :: p in s.depth ==> s.depth[p] <= s.depth[s.results[curr]] + 1)
    && (forall i :: 0 <= i < curr && i < |s.results| ==> LinksIn(site, s, s.results[i]))
  }

  lemma DistanceAtMost(site: Site, root: string, p: string, d: int, k: nat)
    requires IsDistance(site, root, p, d) && Within(site, root, p, k)
    ensures d <= k
  {
    if d > k { WithinGrows(site, root, p, k, d - 1); }
  }

  /** Pages nearer than the current one are before it in the queue. */
  lemma {:induction false} NearerIsBefore(site: Site, root: string, maxDepth: int, s: Crawl, curr: nat, q: string, k: nat)
    requires Sound(site, root, maxDepth, s) && Layered(site, root, s, curr) && curr <= |s.results|
    requires curr < |s.results| ==> k < s.depth[s.results[curr]]
    requires q in s.depth && Within(site, root, q, k)
    ensures LinksIn(site, s, q)
  {
    DistanceAtMost(site, root, q, s.depth[q], k);
    var i :| 0 <= i < |s.results| && s.results[i] == q;
    assert i < curr;
  }

  lemma NextAreIn(site: Site, root: string, s: Crawl, k: nat)
    requires AllIn(site, root, s, k) && forall p :: Within(site, root, p, k) ==> LinksIn(site, s, p)
    ensures AllIn(site, root, s, k + 1)
  {
    forall q | Within(site, root, q, k + 1) ensures q in s.depth {
      if !Within(site, root, q, k) {
        var p :| Within(site, root, p, k) && Links(site, p, q);
      }
    }
  }

  lemma NextAreFound(site: Site, root: string, maxDepth: int, s: Crawl, curr: nat, k: nat)
    requires Sound(site, root, maxDepth, s) && Layered(site, root, s, curr) && curr <= |s.results|
    requires curr < |s.results| ==> k < s.depth[s.results[curr]]
    requires AllIn(site, root, s, k)
    ensures AllIn(site, root, s, k + 1)
  {
    forall p | Within(site, root, p, k) ensures LinksIn(site, s, p) {
      NearerIsBefore(site, root, maxDepth, s, curr, p, k);
    }
    NextAreIn(site, root, s, k);
  }

  /** Every page up to the current depth is found already. */
  lemma {:induction false} NearIsFound(site: Site, root: string, maxDepth: int, s: Crawl, curr: nat, k: nat)
    requires Sound(site, root, maxDepth, s) && Layered(site, root, s, curr) && curr <= |s.results|
    requires curr < |s.results| ==> k <= s.depth[s.results[curr]]
    ensures AllIn(site, root, s, k)
  {
    if k > 0 {
      NearIsFound(site, root, maxDepth, s, curr, k - 1);
      NextAreFound(site, root, maxDepth, s, curr, k - 1);
    }
  }

  lemma OneMoreExact(site: Site, root: string, s: Crawl, s': Crawl, p: string)
    requires Exact(site, root, s) && p in s'.depth && s'.depth == s.depth[p := s'.depth[p]]
    requires s'.depth[p] > 0 && Within(site, root, p, s'.depth[p]) && !Within(site, root, p, s'.depth[p] - 1)
    ensures Exact(site, root, s')
  {}

  lemma LayersKept(site: Site, root: string, s: Crawl, s': Crawl, curr: nat, p: string, d: int)
    requires forall q :: q in s.results ==> q in s.depth
    requires Layered(site, root, s, curr) && curr < |s.results| && p !in s.depth
    requires d == s.depth[s.results[curr]] && s' == Add(s, p, d + 1) && Exact(site, root, s')
    ensures Layered(site, root, s', curr)
    ensures s'.results[curr] == s.results[curr] && s'.depth[s.results[curr]] == d
  {
    forall i | 0 <= i < curr ensures LinksIn(site, s', s'.results[i]) {
      assert s'.results[i] == s.results[i];
    }
    assert ByDepth(s');
  }

  /** The queue while the page at `curr`, of depth `d`, is being crawled. */
  ghost predicate Crawling(site: Site, root: string, maxDepth: int, curr: nat, page: string, d: int, s: Crawl) {
    && Sound(site, root, maxDepth, s) && Layered(site, root, s, curr)
    && curr < |s.results| && s.results[curr] == page && s.depth[page] == d
  }

  lemma NewIsExact(
    site: Site, root: string, maxDepth: int, curr: nat, page: string, d: int, s: Crawl, raw: string, p: string)
    requires Crawling(site, root, maxDepth, curr, page, d, s)
    requires raw in RawLinks(site, page) && site.page(raw) == Some(p) && p !in s.depth
    ensures Exact(site, root, Add(s, p, d + 1))
  {
    NearIsFound(site, root, maxDepth, s, curr, d);
    OneLinkFurther(site, root, d, page, raw, p);
    OneMoreExact(site, root, s, Add(s, p, d + 1), p);
  }

  lemma {:induction false} OneMoreCrawling(
    site: Site, root: string, maxDepth: int, curr: nat, page: string, d: int, s: Crawl, raw: string, p: string)
    requires Crawling(site, root, maxDepth, curr, page, d, s) && d <= maxDepth
    requires raw in RawLinks(site, page) && site.page(raw) == Some(p) && p !in s.depth
    ensures Crawling(site, root, maxDepth, curr, page, d, Add(s, p, d + 1))
  {
    OneMoreSound(site, root, maxDepth, s, page, raw, p);
    NewIsExact(site, root, maxDepth, curr, page, d, s, raw, p);
    LayersKept(site, root, s, Add(s, p, d + 1), curr, p, d);
  }

  lemma PageIsCrawled(site: Site, root: string, maxDepth: int, noCap: int, curr: nat, page: string, d: int, s: Crawl)
    requires Crawling(site, root, maxDepth, curr, page, d, s) && d <= maxDepth
    ensures Crawling(site, root, maxDepth, curr, page, d, Append(site, noCap, s, RawLinks(site, page), 0, d))
  {
    var raws := RawLinks(site, page);
    var inv := (t: Crawl) => Crawling(site, root, maxDepth, curr, page, d, t);
    forall t: Crawl, raw: string | inv(t) && raw in raws && site.page(raw).Some? && site.page(raw).value !in t.depth
      ensures inv(Add(t, site.page(raw).value, d + 1))
    {
      OneMoreCrawling(site, root, maxDepth, curr, page, d, t, raw, site.page(raw).value);
    }
    AppendKeeps(site, noCap, inv, s, raws, 0, d);
  }

  lemma {:induction false} AppendTakesAll(
    site: Site, noCap: int, s: Crawl, raws: seq<string>, i: nat, lastDepth: int, j: nat)
    requires noCap <= 0 && i <= j < |raws| && site.page(raws[j]).Some?
    ensures site.page(raws[j]).value in Append(site, noCap, s, raws, i, lastDepth).depth
    decreases |raws| - i
  {
    var next := site.page(raws[i]);
    var s' := if next.Some? && next.value !in s.depth then Add(s, next.value, lastDepth + 1) else s;
    if i < j {
      AppendTakesAll(site, noCap, s', raws, i + 1, lastDepth, j);
    } else {
      AppendExtends(site, noCap, s', raws, i + 1, lastDepth);
    }
  }

  lemma VisitTakesAll(site: Site, noCap: int, s: Crawl, page: string)
    requires noCap <= 0 && page in s.depth
    ensures LinksIn(site, Visit(site, noCap, s, page), page)
  {
    forall q | Links(site, page, q) ensures q in Visit(site, noCap, s, page).depth {
      var j :| 0 <= j < |RawLinks(site, page)| && site.page(RawLinks(site, page)[j]) == Some(q);
      AppendTakesAll(site, noCap, s, RawLinks(site, page), 0, s.depth[page], j);
    }
  }

  lemma VisitLayered(site: Site, root: string, maxDepth: int, noCap: int, s: Crawl, curr: nat)
    requires Sound(site, root, maxDepth, s) && Layered(site, root, s, curr) && noCap <= 0
    requires curr < |s.results| && s.depth[s.results[curr]] <= maxDepth
    ensures var s' := Visit(site, noCap, s, s.results[curr]);
            Sound(site, root, maxDepth, s') && Layered(site, root, s', curr + 1)
  {
    var page := s.results[curr];
    PageIsCrawled(site, root, maxDepth, noCap, curr, page, s.depth[page], s);
    VisitTakesAll(site, noCap, s, page);
    OneFurther(site, root, maxDepth, curr, page, s.depth[page], Visit(site, noCap, s, page));
  }

  lemma OneFurther(site: Site, root: string, maxDepth: int, curr: nat, page: string, d: int, s: Crawl)
    requires Crawling(site, root, maxDepth, curr, page, d, s) && LinksIn(site, s, page)
    ensures Layered(site, root, s, curr + 1)
  {
    assert ByDepth(s);
  }

  lemma StartLayered(site: Site, root: string, maxDepth: int)
    ensures Sound(site, root, maxDepth, Start(root)) && Layered(site, root, Start(root), 0)
  {}

  lemma RunsLayered(site: Site, root: string, maxDepth: int, noCap: int, k: nat)
    requires Runs(site, root, maxDepth, noCap, k) && noCap <= 0
    ensures var s := After(site, root, noCap, k);
            Sound(site, root, maxDepth, s) && Layered(site, root, s, k)
  {
    var inv := (s: Crawl, j: nat) => Sound(site, root, maxDepth, s) && Layered(site, root, s, j);
    StartLayered(site, root, maxDepth);
    forall s: Crawl, j: nat | inv(s, j) && GoesOn(site, maxDepth, noCap, s, j)
      ensures inv(Visit(site, noCap, s, s.results[j]), j + 1)
    {
      VisitLayered(site, root, maxDepth, noCap, s, j);
    }
    RunKeeps(site, root, maxDepth, noCap, inv, k);
  }

  /** Nothing is lost by stopping at the first page that is too deep. */
  lemma StopsAtHorizon(site: Site, root: string, maxDepth: int, noCap: int, k: nat)
    requires Finishes(site, root, maxDepth, noCap, k) && noCap <= 0 && !RootFails(site, root, maxDepth)
    ensures AllIn(site, root, After(site, root, noCap, k), Horizon(maxDepth))
  {
    RunsLayered(site, root, maxDepth, noCap, k);
    RunsSound(site, root, maxDepth, noCap, k);
    NearIsFound(site, root, maxDepth, After(site, root, noCap, k), k, Horizon(maxDepth));
  }

  /** Breadth-first search is correct: with no cap, whatever the links look like, every
      recorded depth is the length of a shortest walk from the root, the results have no
      duplicates and are in the order of their depth, and unless the root cannot be
      fetched they are exactly the pages at most one link beyond the depth limit. */
  lemma BreadthFirstIsExact(site: Site, root: string, maxDepth: int, noCap: int, k: nat)
    requires Finishes(site, root, maxDepth, noCap, k) && noCap <= 0
    ensures var found := After(site, root, noCap, k);
            && NoDuplicates(found.results)
            && (forall p :: p in found.results <==> p in found.depth)
            && ByDepth(found)
            && (forall p :: p in found.depth ==> IsDistance(site, root, p, found.depth[p]))
            && (!RootFails(site, root, maxDepth) ==> forall p :: p in found.results <==> Within(site, root, p, Horizon(maxDepth)))
  {
    RunsLayered(site, root, maxDepth, noCap, k);
    var found := After(site, root, noCap, k);
    forall p | p in found.depth ensures Within(site, root, p, Horizon(maxDepth)) {
      WithinGrows(site, root, p, found.depth[p], Horizon(maxDepth));
    }
    if !RootFails(site, root, maxDepth) { StopsAtHorizon(site, root, maxDepth, noCap, k); }
  }

  /** Nothing is crawled exactly when the depth limit is negative or the root cannot be
      fetched; then only the root is found. */
  lemma NothingCrawledExactly(site: Site, root: string, maxDepth: int, maxPages: int, k: nat)
    requires Finishes(site, root, maxDepth, maxPages, k)
    ensures k == 0 <==> maxDepth < 0 || site.crawl(root).None?
    ensures k == 0 ==> After(site, root, maxPages, k) == Crawl(map[root := 0], [root])
    ensures RootFails(site, root, maxDepth) <==> k == 0 && maxDepth >= 0
  {
    assert GoesOn(site, maxDepth, maxPages, Start(root), 0) <==> maxDepth >= 0 && site.crawl(root).Some?;
    if k > 0 { RunsFewer(site, root, maxDepth, maxPages, 1, k); }
  }

  // -------------------------------------------------------------------------
  // With a cap: a prefix.
  // -------------------------------------------------------------------------

  function Min(m: int, n: int): int {
    if m < n then m else n
  }

  /** `c` is `u` cut off after `cap` pages. */
  ghost predicate CutOff(c: Crawl, u: Crawl, cap: nat) {
    if |u.results| <= cap then c == u
    else
      && c.results == u.results[..cap]
      && (forall p :: p in c.depth ==> p in u.depth && c.depth[p] == u.depth[p])
  }

  lemma CutOffExtended(c: Crawl, u: Crawl, u': Crawl, cap: nat)
    requires CutOff(c, u, cap) && Extends(u, u') && |u.results| >= cap
    ensures CutOff(c, u', cap)
  {}

  lemma {:induction false} AppendCutOff(site: Site, cap: nat, noCap: int, c: Crawl, u: Crawl, raws: seq<string>, i: nat, lastDepth: int)
    requires cap > 0 && noCap <= 0 && CutOff(c, u, cap) && i <= |raws|
    ensures CutOff(Append(site, cap, c, raws, i, lastDepth), Append(site, noCap, u, raws, i, lastDepth), cap)
    decreases |raws| - i
  {
    if |u.results| >= cap {
      AppendExtends(site, noCap, u, raws, i, lastDepth);
      CutOffExtended(c, u, Append(site, noCap, u, raws, i, lastDepth), cap);
    } else if i < |raws| {
      var next := site.page(raws[i]);
      if next.Some? && next.value !in u.depth {
        var u' := Add(u, next.value, lastDepth + 1);
        AppendCutOff(site, cap, noCap, u', u', raws, i + 1, lastDepth);
      } else {
        AppendCutOff(site, cap, noCap, u, u, raws, i + 1, lastDepth);
      }
    }
  }

  /** Later states hold what earlier states hold. */
  lemma {:induction false} AfterExtends(site: Site, root: string, maxPages: int, j: nat, k: nat)
    requires j <= k
    ensures Extends(After(site, root, maxPages, j), After(site, root, maxPages, k))
  {
    if j < k {
      AfterExtends(site, root, maxPages, j, k - 1);
      var s := After(site, root, maxPages, k - 1);
      if k - 1 < |s.results| && s.results[k - 1] in s.depth {
        AppendExtends(site, maxPages, s, RawLinks(site, s.results[k - 1]), 0, s.depth[s.results[k - 1]]);
      }
      ExtendsTransitive(After(site, root, maxPages, j), s, After(site, root, maxPages, k));
    }
  }

  lemma ExtendsTransitive(s: Crawl, s': Crawl, s'': Crawl)
    requires Extends(s, s') && Extends(s', s'')
    ensures Extends(s, s'')
  {}

  /** While fewer than `cap` pages are crawled both runs look at the same page. */
  lemma SamePage(site: Site, maxDepth: int, c: Crawl, u: Crawl, cap: nat, noCap: int, curr: nat)
    requires CutOff(c, u, cap) && curr < cap && noCap <= 0
    requires curr < |c.results| ==> c.results[curr] in c.depth
    ensures GoesOn(site, maxDepth, cap, c, curr) <==> GoesOn(site, maxDepth, noCap, u, curr)
    ensures GoesOn(site, maxDepth, cap, c, curr) ==>
              c.results[curr] == u.results[curr] && c.depth[c.results[curr]] == u.depth[c.results[curr]]
  {}

  lemma CutOffOn(site: Site, root: string, maxDepth: int, cap: nat, noCap: int, k: nat, c: Crawl, u: Crawl)
    requires k < cap && noCap <= 0 && CutOff(c, u, cap)
    requires Runs(site, root, maxDepth, cap, k) && c == After(site, root, cap, k)
    requires Runs(site, root, maxDepth, noCap, k) && u == After(site, root, noCap, k)
    requires GoesOn(site, maxDepth, cap, c, k) || GoesOn(site, maxDepth, noCap, u, k)
    ensures Runs(site, root, maxDepth, cap, k + 1) && Runs(site, root, maxDepth, noCap, k + 1)
    ensures CutOff(After(site, root, cap, k + 1), After(site, root, noCap, k + 1), cap)
  {
    QueueIsFound(site, root, maxDepth, cap, k);
    SamePage(site, maxDepth, c, u, cap, noCap, k);
    RunsOn(site, root, maxDepth, cap, k, c);
    RunsOn(site, root, maxDepth, noCap, k, u);
    AppendCutOff(site, cap, noCap, c, u, RawLinks(site, c.results[k]), 0, c.depth[c.results[k]]);
  }

  lemma {:induction false} RunsCutOff(site: Site, root: string, maxDepth: int, cap: nat, noCap: int, k: nat)
    requires k <= cap && noCap <= 0
    requires Runs(site, root, maxDepth, cap, k) || Runs(site, root, maxDepth, noCap, k)
    ensures Runs(site, root, maxDepth, cap, k) && Runs(site, root, maxDepth, noCap, k)
    ensures cap > 0 ==> CutOff(After(site, root, cap, k), After(site, root, noCap, k), cap)
  {
    if k > 0 {
      RunsCutOff(site, root, maxDepth, cap, noCap, k - 1);
      CutOffOn(site, root, maxDepth, cap, noCap, k - 1, After(site, root, cap, k - 1), After(site, root, noCap, k - 1));
    }
  }

  lemma {:induction false} RunsFewer(site: Site, root: string, maxDepth: int, maxPages: int, j: nat, k: nat)
    requires Runs(site, root, maxDepth, maxPages, k) && j <= k
    ensures Runs(site, root, maxDepth, maxPages, j)
  {
    if j < k { RunsFewer(site, root, maxDepth, maxPages, j, k - 1); }
  }

  lemma FinishesOnce(site: Site, root: string, maxDepth: int, maxPages: int, k: nat, n: nat)
    requires Finishes(site, root, maxDepth, maxPages, n) && Runs(site, root, maxDepth, maxPages, k)
    ensures k <= n
  {
    if n < k { RunsFewer(site, root, maxDepth, maxPages, n + 1, k); }
  }

  lemma StopsAtCap(site: Site, root: string, maxDepth: int, cap: nat, k: nat)
    requires Runs(site, root, maxDepth, cap, k) && cap > 0
    ensures k <= cap
  {}

  /** Both runs crawl the same number of pages, up to the cap. */
  lemma SameCrawled(site: Site, root: string, maxDepth: int, cap: nat, noCap: int, m: nat, n: nat)
    requires cap > 0 && noCap <= 0
    requires Finishes(site, root, maxDepth, cap, m) && Finishes(site, root, maxDepth, noCap, n)
    ensures m == Min(cap, n)
  {
    StopsAtCap(site, root, maxDepth, cap, m);
    RunsCutOff(site, root, maxDepth, cap, noCap, m);
    FinishesOnce(site, root, maxDepth, noCap, m, n);
    RunsFewer(site, root, maxDepth, noCap, Min(cap, n), n);
    RunsCutOff(site, root, maxDepth, cap, noCap, Min(cap, n));
    FinishesOnce(site, root, maxDepth, cap, Min(cap, n), m);
  }

  /** The cap is a prefix: a crawl capped at `cap` pages finds exactly the first pages the
      uncapped crawl finds, at the same depths, and crawls its first `cap` pages at most. */
  lemma CapIsPrefix(site: Site, root: string, maxDepth: int, cap: nat, noCap: int, m: nat, n: nat)
    requires cap > 0 && noCap <= 0
    requires Finishes(site, root, maxDepth, cap, m) && Finishes(site, root, maxDepth, noCap, n)
    ensures m == Min(cap, n)
    ensures var capped, free := After(site, root, cap, m), After(site, root, noCap, n);
            && capped.results == free.results[..Min(cap, |free.results|)]
            && (forall p :: p in capped.results ==>
                  p in capped.depth && p in free.depth && capped.depth[p] == free.depth[p])
  {
    SameCrawled(site, root, maxDepth, cap, noCap, m, n);
    RunsCutOff(site, root, maxDepth, cap, noCap, m);
    RunsSound(site, root, maxDepth, cap, m);
    RunsSound(site, root, maxDepth, noCap, m);
    if m < n {
      AfterExtends(site, root, noCap, m, n);
      CutOffExtended(After(site, root, cap, m), After(site, root, noCap, m), After(site, root, noCap, n), cap);
    }
  }

  // -------------------------------------------------------------------------
  // The order of the pages.
  // -------------------------------------------------------------------------

  /** The first link to `q` in a list of links. */
  ghost predicate FirstAt(site: Site, links: seq<string>, q: string, l: nat) {
    l < |links| && site.page(links[l]) == Some(q) && forall l' :: 0 <= l' < l ==> site.page(links[l']) != Some(q)
  }

  /** The `a`-th page is the first one that links to `q`, and its `l`-th link the first to do so. */
  ghost predicate Origin(site: Site, results: seq<string>, q: string, a: nat, l: nat) {
    && a < |results| && site.crawl(results[a]).Some? && FirstAt(site, site.crawl(results[a]).value, q, l)
    && forall a' :: 0 <= a' < a ==> !Links(site, results[a'], q)
  }

  predicate Before(x: (nat, nat), y: (nat, nat)) {
    x.0 < y.0 || (x.0 == y.0 && x.1 < y.1)
  }

  /** Every page but the root has its origin, and the pages are in the order of these. */
  ghost predicate InOrderOfOrigin(site: Site, results: seq<string>, origins: seq<(nat, nat)>) {
    && |origins| == |results|
    && (forall j :: 1 <= j < |results| ==> Origin(site, results, results[j], origins[j].0, origins[j].1))
    && (forall i, j :: 1 <= i < j < |results| ==> Before(origins[i], origins[j]))
  }

  /** The links of the pages before the `curr`-th are taken in. */
  ghost predicate TakenIn(site: Site, s: Crawl, curr: nat) {
    forall a :: 0 <= a < curr && a < |s.results| ==> LinksIn(site, s, s.results[a])
  }

  /** The state while the `i`-th link of the `curr`-th page is next. */
  ghost predicate Ordering(site: Site, maxPages: int, s: Crawl, curr: nat, i: nat, origins: seq<(nat, nat)>) {
    && curr < |s.results| && site.crawl(s.results[curr]).Some? && i <= |site.crawl(s.results[curr]).value|
    && (forall p :: p in s.depth <==> p in s.results)
    && InOrderOfOrigin(site, s.results, origins)
    && (forall j :: 1 <= j < |s.results| ==> Before(origins[j], (curr, i)))
    && (!CapReached(maxPages, s.results) ==>
          && TakenIn(site, s, curr)
          && forall l :: 0 <= l < i && site.page(site.crawl(s.results[curr]).value[l]).Some? ==>
               site.page(site.crawl(s.results[curr]).value[l]).value in s.depth)
  }

  lemma OriginKept(site: Site, results: seq<string>, more: seq<string>, q: string, a: nat, l: nat)
    requires Origin(site, results, q, a, l)
    ensures Origin(site, results + more, q, a, l)
  {
    forall a' | 0 <= a' < a ensures !Links(site, (results + more)[a'], q) { assert (results + more)[a'] == results[a']; }
  }

  lemma OneMoreOrdered(site: Site, maxPages: int, s: Crawl, curr: nat, i: nat, origins: seq<(nat, nat)>, q: string, d: int)
    requires Ordering(site, maxPages, s, curr, i, origins) && !CapReached(maxPages, s.results) && q !in s.depth
    requires i < |site.crawl(s.results[curr]).value| && site.page(site.crawl(s.results[curr]).value[i]) == Some(q)
    ensures Ordering(site, maxPages, Add(s, q, d), curr, i + 1, origins + [(curr, i)])
  {
    var s', all := Add(s, q, d), origins + [(curr, i)];
    forall a | 0 <= a < curr ensures !Links(site, s.results[a], q) { assert LinksIn(site, s, s.results[a]); }
    assert Origin(site, s.results, q, curr, i);
    forall j | 1 <= j < |s'.results| ensures Origin(site, s'.results, s'.results[j], all[j].0, all[j].1) {
      OriginKept(site, s.results, [q], s'.results[j], all[j].0, all[j].1);
    }
    forall a | 0 <= a < curr ensures LinksIn(site, s', s'.results[a]) { assert LinksIn(site, s, s.results[a]); }
  }

  lemma OneLessOrdered(site: Site, maxPages: int, s: Crawl, curr: nat, i: nat, origins: seq<(nat, nat)>)
    requires Ordering(site, maxPages, s, curr, i, origins) && i < |site.crawl(s.results[curr]).value|
    requires var next := site.page(site.crawl(s.results[curr]).value[i]);
             next.None? || next.value in s.depth || CapReached(maxPages, s.results)
    ensures Ordering(site, maxPages, s, curr, i + 1, origins)
  {}

  lemma {:induction false} AppendOrdered(
    site: Site, maxPages: int, s: Crawl, curr: nat, i: nat, origins: seq<(nat, nat)>, raws: seq<string>, d: int)
    returns (s': Crawl, origins': seq<(nat, nat)>)
    requires Ordering(site, maxPages, s, curr, i, origins) && site.crawl(s.results[curr]) == Some(raws)
    ensures s' == Append(site, maxPages, s, raws, i, d) && s.results <= s'.results
    ensures Ordering(site, maxPages, s', curr, |raws|, origins')
    decreases |raws| - i
  {
    if i == |raws| {
      s', origins' := s, origins;
    } else {
      var next := site.page(raws[i]);
      if !CapReached(maxPages, s.results) && next.Some? && next.value !in s.depth {
        OneMoreOrdered(site, maxPages, s, curr, i, origins, next.value, d + 1);
        s', origins' := AppendOrdered(site, maxPages, Add(s, next.value, d + 1), curr, i + 1, origins + [(curr, i)], raws, d);
      } else {
        OneLessOrdered(site, maxPages, s, curr, i, origins);
        s', origins' := AppendOrdered(site, maxPages, s, curr, i + 1, origins, raws, d);
        if CapReached(maxPages, s.results) { assert Append(site, maxPages, s, raws, i + 1, d) == s; }
      }
    }
  }

  /** Between two pages of the queue. */
  ghost predicate OrderedUpTo(site: Site, maxPages: int, s: Crawl, curr: nat, origins: seq<(nat, nat)>) {
    && (forall p :: p in s.depth <==> p in s.results)
    && InOrderOfOrigin(site, s.results, origins)
    && (forall j :: 1 <= j < |s.results| ==> Before(origins[j], (curr, 0)))
    && (!CapReached(maxPages, s.results) ==> TakenIn(site, s, curr))
  }

  lemma PageDone(site: Site, maxPages: int, s: Crawl, curr: nat, origins: seq<(nat, nat)>)
    requires curr < |s.results| && site.crawl(s.results[curr]).Some?
    requires Ordering(site, maxPages, s, curr, |site.crawl(s.results[curr]).value|, origins)
    ensures OrderedUpTo(site, maxPages, s, curr + 1, origins)
  {
    LinksTaken(site, s, s.results[curr]);
  }

  lemma NoLinksToTake(site: Site, maxPages: int, s: Crawl, curr: nat, origins: seq<(nat, nat)>)
    requires OrderedUpTo(site, maxPages, s, curr, origins) && curr < |s.results| && site.crawl(s.results[curr]).None?
    ensures OrderedUpTo(site, maxPages, s, curr + 1, origins)
  {
    assert LinksIn(site, s, s.results[curr]);
  }

  lemma VisitOrdered(site: Site, maxPages: int, s: Crawl, curr: nat, origins: seq<(nat, nat)>)
    returns (s': Crawl, origins': seq<(nat, nat)>)
    requires OrderedUpTo(site, maxPages, s, curr, origins) && curr < |s.results| && s.results[curr] in s.depth
    ensures s' == Visit(site, maxPages, s, s.results[curr]) && OrderedUpTo(site, maxPages, s', curr + 1, origins')
  {
    var page := s.results[curr];
    if site.crawl(page).Some? {
      s', origins' := AppendOrdered(site, maxPages, s, curr, 0, origins, site.crawl(page).value, s.depth[page]);
      PageDone(site, maxPages, s', curr, origins');
    } else {
      s', origins' := s, origins;
      NoLinksToTake(site, maxPages, s, curr, origins);
    }
  }

  lemma LinksTaken(site: Site, s: Crawl, page: string)
    requires site.crawl(page).Some?
    ensures (forall l :: 0 <= l < |site.crawl(page).value| && site.page(site.crawl(page).value[l]).Some? ==>
               site.page(site.crawl(page).value[l]).value in s.depth) ==> LinksIn(site, s, page)
  {
    var links := site.crawl(page).value;
    if forall l :: 0 <= l < |links| && site.page(links[l]).Some? ==> site.page(links[l]).value in s.depth {
      forall q | Links(site, page, q) ensures q in s.depth {
        var raw :| raw in links && site.page(raw) == Some(q);
        var l :| 0 <= l < |links| && links[l] == raw;
      }
    }
  }

  ghost predicate HasOrder(site: Site, maxPages: int, s: Crawl, curr: nat) {
    exists origins :: OrderedUpTo(site, maxPages, s, curr, origins)
  }

  lemma NextHasOrder(site: Site, maxDepth: int, maxPages: int, s: Crawl, curr: nat)
    requires HasOrder(site, maxPages, s, curr) && GoesOn(site, maxDepth, maxPages, s, curr)
    ensures HasOrder(site, maxPages, Visit(site, maxPages, s, s.results[curr]), curr + 1)
  {
    var origins :| OrderedUpTo(site, maxPages, s, curr, origins);
    var s', origins' := VisitOrdered(site, maxPages, s, curr, origins);
  }

  /** The order of the results, capped or not: each page but the root comes from the first
      page of the results that links to it, and pages are in the order of these, and of
      their first links where these are the same page. */
  lemma ResultsInOrderOfOrigin(site: Site, root: string, maxDepth: int, maxPages: int, k: nat) returns (origins: seq<(nat, nat)>)
    requires Runs(site, root, maxDepth, maxPages, k)
    ensures var results := After(site, root, maxPages, k).results;
            results != [] && results[0] == root && InOrderOfOrigin(site, results, origins)
  {
    var inv := (s: Crawl, j: nat) => HasOrder(site, maxPages, s, j);
    assert OrderedUpTo(site, maxPages, Start(root), 0, [(0, 0)]);
    forall s: Crawl, j: nat | inv(s, j) && GoesOn(site, maxDepth, maxPages, s, j)
      ensures inv(Visit(site, maxPages, s, s.results[j]), j + 1)
    {
      NextHasOrder(site, maxDepth, maxPages, s, j);
    }
    RunKeeps(site, root, maxDepth, maxPages, inv, k);
    origins :| OrderedUpTo(site, maxPages, After(site, root, maxPages, k), k, origins);
    RunsSound(site, root, maxDepth, maxPages, k);
  }
}
