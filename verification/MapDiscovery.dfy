/** Map discovery: sitemap entries first, then a level-by-level crawl whose pages land in any order. */
module MapDiscovery {
  import opened Numbers
  import opened Reach
  import opened Sequences
  import opened Text

  const MAX_DISCOVERED_URLS_CEILING := 5_000_000
  const MAX_DEPTH_CEILING := 10

  /** One link of a page: what parsing, the safety check, the origin check and the /map filter said of
      it. `key` is what the filter makes of it, if it keeps it. */
  datatype Link = Unparsed | Link(safe: bool, sameOrigin: bool, key: Option<string>, asset: bool)
  {
    predicate Listed()
    {
      Link? && safe && sameOrigin && key.Some?
    }
  }

  /** `page(u)` is the links of the page fetched from `u`, or None when there is no page to read:
      a failed fetch, a wall, an unsafe address, no budget left. `normalize` gives dedup keys and
      `fetchAllowed` says what robots.txt permits. */
  datatype Web = Web(page: string -> Option<seq<Link>>, normalize: string -> string, fetchAllowed: string -> bool)
  {
    function LinksOf(u: string): seq<Link>
    {
      match page(u)
      case Some(links) => links
      case None => []
    }

    /** The keys each page lists. */
    ghost function Lists(): string -> set<string>
    {
      u => KeysIn(LinksOf(u))
    }

    /** Whatever the filter keeps is its own dedup key. */
    ghost predicate FilterIsNormal()
    {
      forall u, l :: l in LinksOf(u) && l.Listed() ==> normalize(l.key.value) == l.key.value
    }

    /** Whether a link names a static asset is a matter of its key alone. */
    ghost predicate AssetByKey(isAsset: string -> bool)
    {
      forall u, l :: l in LinksOf(u) && l.Listed() ==> l.asset == isAsset(l.key.value)
    }
  }

  /** The keys of the links that are safe, of the same origin, and kept by the filter. */
  ghost function KeysIn(links: seq<Link>): set<string>
  {
    set l | l in links && l.Link? && l.safe && l.sameOrigin && l.key.Some? :: l.key.value
  }

  datatype Settings = Settings(maxUrls: nat, maxDepth: nat, respectRobots: bool)

  /** `0` asks for everything; nobody gets more than the ceiling. */
  function UrlCap(requested: nat): (cap: nat)
    ensures 1 <= requested <= 5_000_000 ==> cap == requested
    ensures requested == 0 || requested > 5_000_000 ==> cap == 5_000_000
  {
    if requested == 0 || requested > MAX_DISCOVERED_URLS_CEILING then MAX_DISCOVERED_URLS_CEILING else requested
  }

  /** The mutable state of a level: keys seen, URLs to report, pages to fetch next. */
  datatype Found = Found(visited: set<string>, urls: set<string>, next: seq<string>)

  predicate MayFetch(web: Web, cfg: Settings, key: string)
  {
    cfg.respectRobots ==> web.fetchAllowed(key)
  }

  // ----- merging one page -----

  predicate New(f: Found, l: Link)
  {
    l.Listed() && l.key.value !in f.visited
  }

  /** The state after one link, and whether the cap was hit on it. */
  function AddLink(web: Web, cfg: Settings, depth: nat, f: Found, l: Link): (r: (Found, bool))
    requires New(f, l)
  {
    var k := l.key.value;
    var urls := f.urls + {k};
    var full := |urls| >= cfg.maxUrls;
    var fetch := !full && depth < cfg.maxDepth && !l.asset && MayFetch(web, cfg, k);
    (Found(f.visited + {k}, urls, if fetch then f.next + [k] else f.next), full)
  }

  /** The state after the links of one page, in order, stopping where the cap is hit. */
  function AddLinks(web: Web, cfg: Settings, depth: nat, f: Found, links: seq<Link>): Found
    decreases |links|
  {
    if links == [] then f
    else if !New(f, links[0]) then AddLinks(web, cfg, depth, f, links[1..])
    else
      var (g, full) := AddLink(web, cfg, depth, f, links[0]);
      if full then g else AddLinks(web, cfg, depth, g, links[1..])
  }

  /** Bookkeeping that holds however the merge was cut short: what is new is reported, and what is queued
      is new, queued once and open to us. */
  ghost predicate Grows(web: Web, cfg: Settings, f: Found, g: Found)
  {
    && f.visited <= g.visited
    && g.urls == f.urls + (g.visited - f.visited)
    && |g.urls| <= Max(|f.urls|, cfg.maxUrls)
    && f.next <= g.next && (NoDuplicates(f.next) && ToSet(f.next) <= f.visited ==> NoDuplicates(g.next))
    && (forall i :: |f.next| <= i < |g.next| ==>
          g.next[i] in g.visited && g.next[i] !in f.visited && MayFetch(web, cfg, g.next[i]))
  }

  lemma AddLinkGrows(web: Web, cfg: Settings, depth: nat, f: Found, l: Link)
    requires New(f, l) && |f.urls| < cfg.maxUrls
    ensures Grows(web, cfg, f, AddLink(web, cfg, depth, f, l).0)
  {
  }

  lemma GrowsTransitive(web: Web, cfg: Settings, f: Found, g: Found, h: Found)
    requires Grows(web, cfg, f, g) && Grows(web, cfg, g, h)
    requires ToSet(f.next) <= f.visited
    ensures ToSet(g.next) <= g.visited && Grows(web, cfg, f, h)
  {
    forall k | k in ToSet(g.next)
      ensures k in g.visited
    {
      var i :| 0 <= i < |g.next| && g.next[i] == k;
      if i < |f.next| {
        assert f.next[i] in ToSet(f.next);
      }
    }
    forall i | |f.next| <= i < |h.next|
      ensures h.next[i] in h.visited && h.next[i] !in f.visited && MayFetch(web, cfg, h.next[i])
    {
      if i < |g.next| {
        assert h.next[i] == g.next[i];
      }
    }
  }

  lemma {:induction false} AddLinksGrows(web: Web, cfg: Settings, depth: nat, f: Found, links: seq<Link>)
    requires |f.urls| < cfg.maxUrls && ToSet(f.next) <= f.visited
    ensures Grows(web, cfg, f, AddLinks(web, cfg, depth, f, links))
    ensures ToSet(AddLinks(web, cfg, depth, f, links).next) <= AddLinks(web, cfg, depth, f, links).visited
    ensures AddLinks(web, cfg, depth, f, links).visited <= f.visited + KeysIn(links)
    decreases |links|
  {
    hide Grows, KeysIn;
    GrowsReflexive(web, cfg, f);
    if links != [] {
      assert links == [links[0]] + links[1..];
      KeysInCons(links[0], links[1..]);
      if !New(f, links[0]) {
        AddLinksGrows(web, cfg, depth, f, links[1..]);
      } else {
        var (g, full) := AddLink(web, cfg, depth, f, links[0]);
        AddLinkGrows(web, cfg, depth, f, links[0]);
        GrowsReflexive(web, cfg, g);
        if full {
          GrowsTransitive(web, cfg, f, g, g);
        } else {
          GrowsTransitive(web, cfg, f, g, g);
          AddLinksGrows(web, cfg, depth, g, links[1..]);
          GrowsTransitive(web, cfg, f, g, AddLinks(web, cfg, depth, g, links[1..]));
        }
      }
    }
  }

  lemma GrowsReflexive(web: Web, cfg: Settings, f: Found)
    ensures Grows(web, cfg, f, f)
  {
  }

  /** Below the cap, everything the page lists is in, and exactly the new fetchable keys are queued. */
  ghost predicate AllAdded(web: Web, cfg: Settings, depth: nat, isAsset: string -> bool,
                           f: Found, g: Found, keys: set<string>)
  {
    && g.visited == f.visited + keys
    && ToSet(g.next) == ToSet(f.next) + Queued(web, cfg, depth, isAsset, keys, f.visited)
  }

  /** Of these keys, those a page at `depth` puts on the next level. */
  ghost function Queued(web: Web, cfg: Settings, depth: nat, isAsset: string -> bool,
                        keys: set<string>, visited: set<string>): set<string>
  {
    set k | k in keys && k !in visited && depth < cfg.maxDepth && Fetchable(web, cfg, isAsset, k)
  }

  lemma QueuedOfUnion(web: Web, cfg: Settings, depth: nat, isAsset: string -> bool,
                      keys: set<string>, more: set<string>, visited: set<string>)
    ensures Queued(web, cfg, depth, isAsset, keys + more, visited)
         == Queued(web, cfg, depth, isAsset, keys, visited) + Queued(web, cfg, depth, isAsset, more, visited + keys)
  {
  }

  ghost predicate Fetchable(web: Web, cfg: Settings, isAsset: string -> bool, k: string)
  {
    !isAsset(k) && (cfg.respectRobots ==> web.fetchAllowed(k))
  }

  lemma KeysInCons(l: Link, links: seq<Link>)
    ensures KeysIn([l] + links) == KeysIn(links) + if l.Listed() then {l.key.value} else {}
  {
    assert forall x :: x in [l] + links <==> x == l || x in links;
    if l.Listed() {
      assert l in [l] + links;
    }
    forall k | k in KeysIn(links)
      ensures k in KeysIn([l] + links)
    {
      var x :| x in links && x.Listed() && x.key.value == k;
      assert x in [l] + links;
    }
  }

  /** A link that is not new changes nothing about what a merge must add. */
  lemma AllAddedSkip(web: Web, cfg: Settings, depth: nat, isAsset: string -> bool, f: Found, g: Found,
                     keys: set<string>, l: Link)
    requires AllAdded(web, cfg, depth, isAsset, f, g, keys) && !New(f, l)
    ensures AllAdded(web, cfg, depth, isAsset, f, g, keys + if l.Listed() then {l.key.value} else {})
  {
    var extra := if l.Listed() then {l.key.value} else {};
    QueuedOfUnion(web, cfg, depth, isAsset, keys, extra, f.visited);
    assert Queued(web, cfg, depth, isAsset, extra, f.visited + keys) == {};
  }

  lemma AllAddedStep(web: Web, cfg: Settings, depth: nat, isAsset: string -> bool, f: Found, g: Found,
                     keys: set<string>, l: Link)
    requires New(f, l) && l.asset == isAsset(l.key.value)
    requires |f.urls + {l.key.value}| < cfg.maxUrls
    requires AllAdded(web, cfg, depth, isAsset, AddLink(web, cfg, depth, f, l).0, g, keys)
    ensures AllAdded(web, cfg, depth, isAsset, f, g, keys + {l.key.value})
  {
    var k := l.key.value;
    ToSetSnoc(f.next, k);
    QueuedOfUnion(web, cfg, depth, isAsset, {k}, keys, f.visited);
    assert Queued(web, cfg, depth, isAsset, {k}, f.visited)
        == if depth < cfg.maxDepth && Fetchable(web, cfg, isAsset, k) then {k} else {};
    assert {k} + keys == keys + {k};
    hide Queued;
  }

  lemma {:induction false} AddLinksAddsAll(web: Web, cfg: Settings, depth: nat, isAsset: string -> bool,
                                           f: Found, links: seq<Link>)
    requires forall l :: l in links && l.Listed() ==> l.asset == isAsset(l.key.value)
    ensures var g := AddLinks(web, cfg, depth, f, links);
      |g.urls| < cfg.maxUrls ==> AllAdded(web, cfg, depth, isAsset, f, g, KeysIn(links))
    decreases |links|
  {
    if links == [] {
      assert KeysIn([]) == {};
    } else {
      hide AllAdded, KeysIn;
      var l, rest := links[0], links[1..];
      assert links == [l] + rest;
      KeysInCons(l, rest);
      assert l in links && forall x :: x in rest ==> x in links;
      var h := AddLinks(web, cfg, depth, f, links);
      if |h.urls| < cfg.maxUrls {
        if !New(f, l) {
          AddLinksAddsAll(web, cfg, depth, isAsset, f, rest);
          AllAddedSkip(web, cfg, depth, isAsset, f, h, KeysIn(rest), l);
        } else {
          var (g, full) := AddLink(web, cfg, depth, f, l);
          AddLinksAddsAll(web, cfg, depth, isAsset, g, rest);
          AllAddedStep(web, cfg, depth, isAsset, f, h, KeysIn(rest), l);
        }
      }
    }
  }

  /** Only pages are queued, and only above the depth limit. */
  ghost predicate QueuesPages(cfg: Settings, depth: nat, isAsset: string -> bool, next: seq<string>)
  {
    forall k :: k in next ==> depth < cfg.maxDepth && !isAsset(k)
  }

  lemma NothingQueued(cfg: Settings, depth: nat, isAsset: string -> bool, f: Found)
    ensures f.next == [] ==> QueuesPages(cfg, depth, isAsset, f.next)
  {
  }

  lemma {:induction false} AddLinksQueuesPages(web: Web, cfg: Settings, depth: nat, isAsset: string -> bool,
                                               f: Found, links: seq<Link>)
    requires forall l :: l in links && l.Listed() ==> l.asset == isAsset(l.key.value)
    requires QueuesPages(cfg, depth, isAsset, f.next)
    ensures QueuesPages(cfg, depth, isAsset, AddLinks(web, cfg, depth, f, links).next)
    decreases |links|
  {
    if links != [] {
      var l, rest := links[0], links[1..];
      assert l in links && forall x :: x in rest ==> x in links;
      if !New(f, l) {
        AddLinksQueuesPages(web, cfg, depth, isAsset, f, rest);
      } else {
        var (g, full) := AddLink(web, cfg, depth, f, l);
        assert QueuesPages(cfg, depth, isAsset, g.next);
        AddLinksQueuesPages(web, cfg, depth, isAsset, g, rest);
      }
    }
  }

  method MergePage(web: Web, cfg: Settings, depth: nat, f: Found, links: seq<Link>) returns (g: Found)
    ensures g == AddLinks(web, cfg, depth, f, links)
  {
    var visited, urls, next := f.visited, f.urls, f.next;
    for i := 0 to |links|
      invariant AddLinks(web, cfg, depth, Found(visited, urls, next), links[i..]) == AddLinks(web, cfg, depth, f, links)
    {
      var l := links[i];
      assert links[i..][0] == l && links[i..][1..] == links[i + 1..];
      if !l.Listed() || l.key.value in visited {
        continue;
      }
      var k := l.key.value;
      visited := visited + {k};
      urls := urls + {k};
      if |urls| >= cfg.maxUrls {
        return Found(visited, urls, next);
      }
      if depth >= cfg.maxDepth || l.asset {
        continue;
      }
      if cfg.respectRobots && !web.fetchAllowed(k) {
        continue;
      }
      next := next + [k];
    }
    g := Found(visited, urls, next);
  }

  // ----- one level -----

  lemma AllAddedTransitive(web: Web, cfg: Settings, depth: nat, isAsset: string -> bool,
                           f: Found, g: Found, h: Found, keys: set<string>, more: set<string>)
    requires AllAdded(web, cfg, depth, isAsset, f, g, keys) && AllAdded(web, cfg, depth, isAsset, g, h, more)
    ensures AllAdded(web, cfg, depth, isAsset, f, h, keys + more)
  {
    QueuedOfUnion(web, cfg, depth, isAsset, keys, more, f.visited);
  }

  lemma NothingAdded(web: Web, cfg: Settings, depth: nat, isAsset: string -> bool, f: Found)
    ensures AllAdded(web, cfg, depth, isAsset, f, f, {})
  {
  }

  lemma ImageSnoc(done: seq<string>, u: string, lists: string -> set<string>)
    ensures Image(ToSet(done + [u]), lists) == Image(ToSet(done), lists) + lists(u)
  {
    ToSetSnoc(done, u);
  }

  /** The state after the pages of a level have landed in this order. */
  function MergeInOrder(web: Web, cfg: Settings, depth: nat, f: Found, order: seq<string>): Found
  {
    if order == [] then f
    else AddLinks(web, cfg, depth, MergeInOrder(web, cfg, depth, f, order[..|order| - 1]),
                  web.LinksOf(order[|order| - 1]))
  }

  lemma MergeNothing(web: Web, cfg: Settings, depth: nat, f: Found)
    ensures MergeInOrder(web, cfg, depth, f, []) == f
  {
  }

  lemma OneMoreLands(web: Web, cfg: Settings, depth: nat, f: Found, order: seq<string>, i: nat)
    requires i < |order|
    ensures MergeInOrder(web, cfg, depth, f, order[..i + 1])
         == AddLinks(web, cfg, depth, MergeInOrder(web, cfg, depth, f, order[..i]), web.LinksOf(order[i]))
  {
    assert order[..i + 1][..i] == order[..i];
  }

  /** The clock, read at each of these landings, did not say it was late. */
  ghost predicate OnTime(late: nat -> bool, t0: nat, landed: nat)
  {
    forall t: nat :: t0 < t <= t0 + landed ==> !late(t)
  }

  /** At each of these landings there was room below the cap. */
  ghost predicate HadRoom(web: Web, cfg: Settings, depth: nat, f: Found, order: seq<string>, landed: nat)
  {
    forall k :: 0 <= k < landed && k <= |order| ==> |MergeInOrder(web, cfg, depth, f, order[..k]).urls| < cfg.maxUrls
  }

  /** The first `landed` pages in this order are merged, the clock read as `late(t0 + k)` at the `k`-th: while there
      is room and time, and until there is not or no page is left. */
  ghost predicate LandsUntil(web: Web, cfg: Settings, late: nat -> bool, t0: nat, depth: nat, f: Found,
                             order: seq<string>, landed: nat)
  {
    && landed <= |order| && OnTime(late, t0, landed) && HadRoom(web, cfg, depth, f, order, landed)
    && (landed < |order| ==>
          |MergeInOrder(web, cfg, depth, f, order[..landed]).urls| >= cfg.maxUrls || late(t0 + landed + 1))
  }

  lemma OneMoreOnTime(web: Web, cfg: Settings, late: nat -> bool, t0: nat, depth: nat, f: Found,
                      order: seq<string>, i: nat)
    requires OnTime(late, t0, i) && HadRoom(web, cfg, depth, f, order, i) && i < |order|
    requires !late(t0 + i + 1) && |MergeInOrder(web, cfg, depth, f, order[..i]).urls| < cfg.maxUrls
    ensures OnTime(late, t0, i + 1) && HadRoom(web, cfg, depth, f, order, i + 1)
  {
  }

  lemma NothingLanded(web: Web, cfg: Settings, late: nat -> bool, t0: nat, depth: nat, f: Found, order: seq<string>)
    ensures OnTime(late, t0, 0) && HadRoom(web, cfg, depth, f, order, 0)
  {
  }

  /** Fetches a level concurrently and merges its pages as they land, in whatever order that is, until
      the cap is hit or the clock, read as `late(t)` at the `t`-th landing, says the time is up. */
  method MergeLevel(web: Web, cfg: Settings, depth: nat, f: Found, level: seq<string>, late: nat -> bool, t0: nat,
                    ghost isAsset: string -> bool)
    returns (g: Found, t: nat, ghost order: seq<string>, ghost landed: nat)
    requires NoDuplicates(level) && |f.urls| < cfg.maxUrls && f.next == []
    ensures Grows(web, cfg, f, g) && ToSet(g.next) <= g.visited
    ensures g.visited <= f.visited + Image(ToSet(level), web.Lists())
    ensures (forall n: nat :: !late(n)) && |g.urls| < cfg.maxUrls && web.AssetByKey(isAsset) ==>
              AllAdded(web, cfg, depth, isAsset, f, g, Image(ToSet(level), web.Lists()))
    ensures web.AssetByKey(isAsset) ==> QueuesPages(cfg, depth, isAsset, g.next)
    ensures multiset(order) == multiset(level) && landed <= |order|
    ensures g == MergeInOrder(web, cfg, depth, f, order[..landed])
    ensures LandsUntil(web, cfg, late, t0, depth, f, order, landed)
    ensures t == t0 + landed + if landed < |order| && |g.urls| < cfg.maxUrls then 1 else 0
    ensures (forall n: nat :: !late(n)) && |g.urls| < cfg.maxUrls ==> landed == |order|
  {
    hide Landing, Grows, AllAdded, KeysIn, Image, Web.AssetByKey, AddLinks, LandsUntil, MergeInOrder, QueuesPages;
    var landing :| multiset(landing) == multiset(level);
    order, landed := landing, 0;
    LandingStarts(web, cfg, late, t0, depth, isAsset, f, landing);
    g, t := f, t0;
    for i := 0 to |landing|
      invariant landed == i && t == t0 + i && Landing(web, cfg, late, t0, depth, isAsset, f, landing, i, g)
    {
      if |g.urls| >= cfg.maxUrls {
        LandingEnds(web, cfg, late, t0, depth, isAsset, f, level, landing, i, g);
        return;
      }
      t := t + 1;
      if late(t) {
        LandingEnds(web, cfg, late, t0, depth, isAsset, f, level, landing, i, g);
        return;
      }
      LandingStep(web, cfg, late, t0, depth, isAsset, f, landing, i, g);
      match web.page(landing[i]) {
        case None =>
        case Some(links) =>
          g := MergePage(web, cfg, depth, g, links);
      }
      landed := i + 1;
    }
    LandingEnds(web, cfg, late, t0, depth, isAsset, f, level, landing, |landing|, g);
  }

  /** The state in the middle of a level, when the first `i` pages have landed. */
  ghost predicate Landing(web: Web, cfg: Settings, late: nat -> bool, t0: nat, depth: nat, isAsset: string -> bool,
                          f: Found, landing: seq<string>, i: nat, g: Found)
  {
    && i <= |landing| && g == MergeInOrder(web, cfg, depth, f, landing[..i])
    && OnTime(late, t0, i) && HadRoom(web, cfg, depth, f, landing, i)
    && Grows(web, cfg, f, g) && ToSet(g.next) <= g.visited
    && g.visited <= f.visited + Image(ToSet(landing[..i]), web.Lists())
    && (|g.urls| < cfg.maxUrls && web.AssetByKey(isAsset) ==>
          AllAdded(web, cfg, depth, isAsset, f, g, Image(ToSet(landing[..i]), web.Lists())))
    && (web.AssetByKey(isAsset) ==> QueuesPages(cfg, depth, isAsset, g.next))
  }

  lemma LandingStarts(web: Web, cfg: Settings, late: nat -> bool, t0: nat, depth: nat, isAsset: string -> bool,
                      f: Found, landing: seq<string>)
    requires f.next == []
    ensures Landing(web, cfg, late, t0, depth, isAsset, f, landing, 0, f)
  {
    hide Grows, AllAdded, KeysIn, Image, Web.AssetByKey, AddLinks, OnTime, HadRoom, MergeInOrder, QueuesPages;
    MergeNothing(web, cfg, depth, f);
    GrowsReflexive(web, cfg, f);
    NothingAdded(web, cfg, depth, isAsset, f);
    ImageOfNone(landing, web.Lists());
    NothingLanded(web, cfg, late, t0, depth, f, landing);
    NothingQueued(cfg, depth, isAsset, f);
    assert landing[..0] == [] && ToSet(f.next) == {};
  }

  lemma LandingStep(web: Web, cfg: Settings, late: nat -> bool, t0: nat, depth: nat, isAsset: string -> bool,
                    f: Found, landing: seq<string>, i: nat, g: Found)
    requires Landing(web, cfg, late, t0, depth, isAsset, f, landing, i, g) && i < |landing| && f.next == []
    requires |g.urls| < cfg.maxUrls && !late(t0 + i + 1)
    ensures Landing(web, cfg, late, t0, depth, isAsset, f, landing, i + 1,
                    AddLinks(web, cfg, depth, g, web.LinksOf(landing[i])))
    ensures web.page(landing[i]).None? ==> AddLinks(web, cfg, depth, g, web.LinksOf(landing[i])) == g
  {
    hide Grows, AllAdded, KeysIn, Image, Web.AssetByKey, AddLinks, OnTime, HadRoom, MergeInOrder, QueuesPages;
    assert ToSet(f.next) == {};
    PrefixSnoc(landing, i);
    OneMoreOnTime(web, cfg, late, t0, depth, f, landing, i);
    OneMoreLands(web, cfg, depth, f, landing, i);
    PageLands(web, cfg, depth, isAsset, f, g, landing[..i], landing[i]);
    PageQueuesPages(web, cfg, depth, isAsset, g, landing[i]);
  }

  lemma LandingEnds(web: Web, cfg: Settings, late: nat -> bool, t0: nat, depth: nat, isAsset: string -> bool,
                    f: Found, level: seq<string>, landing: seq<string>, i: nat, g: Found)
    requires Landing(web, cfg, late, t0, depth, isAsset, f, landing, i, g) && multiset(landing) == multiset(level)
    requires i == |landing| || |g.urls| >= cfg.maxUrls || late(t0 + i + 1)
    ensures Grows(web, cfg, f, g) && ToSet(g.next) <= g.visited
    ensures g.visited <= f.visited + Image(ToSet(level), web.Lists())
    ensures i == |landing| && |g.urls| < cfg.maxUrls && web.AssetByKey(isAsset) ==>
      AllAdded(web, cfg, depth, isAsset, f, g, Image(ToSet(level), web.Lists()))
    ensures web.AssetByKey(isAsset) ==> QueuesPages(cfg, depth, isAsset, g.next)
    ensures i <= |landing| && g == MergeInOrder(web, cfg, depth, f, landing[..i])
    ensures LandsUntil(web, cfg, late, t0, depth, f, landing, i)
  {
    hide Grows, AllAdded, KeysIn, Image, Web.AssetByKey, AddLinks, OnTime, HadRoom, MergeInOrder, QueuesPages;
    SameElements(landing, level);
    assert ToSet(landing) == ToSet(level);
    ImageOfPrefix(landing, i, web.Lists());
    PrefixSnoc(landing, i);
  }

  /** The invariant of a level carries over one landing; a page that could not be read adds nothing. */
  lemma PageLands(web: Web, cfg: Settings, depth: nat, isAsset: string -> bool,
                  f: Found, g: Found, done: seq<string>, u: string)
    requires Grows(web, cfg, f, g) && ToSet(f.next) <= f.visited && ToSet(g.next) <= g.visited
    requires g.visited <= f.visited + Image(ToSet(done), web.Lists()) && |g.urls| < cfg.maxUrls
    requires web.AssetByKey(isAsset) ==>
      AllAdded(web, cfg, depth, isAsset, f, g, Image(ToSet(done), web.Lists()))
    ensures var h := AddLinks(web, cfg, depth, g, web.LinksOf(u));
      && Grows(web, cfg, f, h) && ToSet(h.next) <= h.visited
      && h.visited <= f.visited + Image(ToSet(done + [u]), web.Lists())
      && (|h.urls| < cfg.maxUrls && web.AssetByKey(isAsset) ==>
            AllAdded(web, cfg, depth, isAsset, f, h, Image(ToSet(done + [u]), web.Lists())))
      && (web.page(u).None? ==> h == g)
  {
    hide Grows, AllAdded, KeysIn, Image, Web.AssetByKey;
    var h := AddLinks(web, cfg, depth, g, web.LinksOf(u));
    ImageSnoc(done, u, web.Lists());
    AddLinksGrows(web, cfg, depth, g, web.LinksOf(u));
    GrowsTransitive(web, cfg, f, g, h);
    if |h.urls| < cfg.maxUrls && web.AssetByKey(isAsset) {
      PageAssets(web, isAsset, u);
      AddLinksAddsAll(web, cfg, depth, isAsset, g, web.LinksOf(u));
      AllAddedTransitive(web, cfg, depth, isAsset, f, g, h, Image(ToSet(done), web.Lists()), web.Lists()(u));
    }
  }

  lemma PageQueuesPages(web: Web, cfg: Settings, depth: nat, isAsset: string -> bool, g: Found, u: string)
    ensures web.AssetByKey(isAsset) && QueuesPages(cfg, depth, isAsset, g.next) ==>
      QueuesPages(cfg, depth, isAsset, AddLinks(web, cfg, depth, g, web.LinksOf(u)).next)
  {
    hide Web.AssetByKey, QueuesPages;
    if web.AssetByKey(isAsset) && QueuesPages(cfg, depth, isAsset, g.next) {
      PageAssets(web, isAsset, u);
      AddLinksQueuesPages(web, cfg, depth, isAsset, g, web.LinksOf(u));
    }
  }

  lemma ImageOfNone(order: seq<string>, lists: string -> set<string>)
    ensures Image(ToSet(order[..0]), lists) == {}
  {
  }

  lemma PageAssets(web: Web, isAsset: string -> bool, u: string)
    requires web.AssetByKey(isAsset)
    ensures forall l :: l in web.LinksOf(u) && l.Listed() ==> l.asset == isAsset(l.key.value)
  {
  }

  lemma ImageOfPrefix(order: seq<string>, i: nat, lists: string -> set<string>)
    requires i <= |order|
    ensures Image(ToSet(order[..i]), lists) <= Image(ToSet(order), lists)
  {
    assert forall u :: u in order[..i] ==> u in order;
  }

  // ----- the whole discovery -----

  /** The pages that a page leads on to. */
  ghost function LeadsTo(web: Web, cfg: Settings, isAsset: string -> bool, baseKey: string): string -> set<string>
  {
    u => set k | k in web.Lists()(u) && Fetchable(web, cfg, isAsset, k) && k != baseKey
  }

  /** What the crawl phase has planned so far: pages fetched and pages to fetch, the seed first, every other
      one reported, under a key of its own that is not the seed's, and open to us. */
  ghost predicate Planned(web: Web, cfg: Settings, base: string, plan: seq<string>, visited: set<string>)
  {
    && plan != [] && plan[0] == base && NoDuplicates(plan[1..])
    && (forall i :: 0 < i < |plan| ==>
          plan[i] in visited && plan[i] != web.normalize(base) && MayFetch(web, cfg, plan[i]))
    && (web.FilterIsNormal() ==> forall k :: k in visited ==> k == web.normalize(base) || web.normalize(k) == k)
  }

  /** No two of these pages share a dedup key. */
  ghost predicate DistinctKeys(web: Web, pages: seq<string>)
  {
    forall i, j :: 0 <= i < j < |pages| ==> web.normalize(pages[i]) != web.normalize(pages[j])
  }

  ghost predicate Reported(base: string, baseKey: string, start: set<string>, visited: set<string>, urls: set<string>)
  {
    baseKey in visited && urls == start + (visited - {baseKey})
  }

  /** Nothing was cut: `fetched` is what lies within `depth - 1` hops and `frontier` completes `depth`. */
  ghost predicate Exact(web: Web, cfg: Settings, isAsset: string -> bool, base: string, depth: nat,
                        fetched: seq<string>, frontier: seq<string>, visited: set<string>)
  {
    var hops := LeadsTo(web, cfg, isAsset, web.normalize(base));
    && visited == {web.normalize(base)} + Image(ToSet(fetched), web.Lists())
    && ToSet(fetched) == (if depth == 0 then {} else Ball({base}, hops, depth - 1))
    && (depth <= cfg.maxDepth ==> ToSet(fetched) + ToSet(frontier) == Ball({base}, hops, depth))
  }

  /** Whatever is cut, the crawl stays within the pages it could reach and the keys these list. */
  ghost predicate Bounded(web: Web, cfg: Settings, isAsset: string -> bool, base: string, depth: nat,
                          fetched: seq<string>, frontier: seq<string>, visited: set<string>)
  {
    var hops := LeadsTo(web, cfg, isAsset, web.normalize(base));
    && ToSet(fetched) <= Ball({base}, hops, cfg.maxDepth)
    && visited <= {web.normalize(base)} + Image(Ball({base}, hops, cfg.maxDepth), web.Lists())
    && ToSet(frontier) <= (if depth <= cfg.maxDepth then Ball({base}, hops, depth) else {})
  }

  lemma BoundedStarts(web: Web, cfg: Settings, isAsset: string -> bool, base: string)
    ensures Bounded(web, cfg, isAsset, base, 0, [], [base], {web.normalize(base)})
  {
    var hops := LeadsTo(web, cfg, isAsset, web.normalize(base));
    assert ToSet([base]) == {base} == Ball({base}, hops, 0);
  }

  lemma BoundedGrows(web: Web, cfg: Settings, isAsset: string -> bool, base: string, depth: nat,
                     fetched: seq<string>, level: seq<string>, f: Found, g: Found)
    requires Bounded(web, cfg, isAsset, base, depth, fetched, level, f.visited) && depth <= cfg.maxDepth
    requires web.normalize(base) in f.visited
    requires f.next == [] && Grows(web, cfg, f, g) && QueuesPages(cfg, depth, isAsset, g.next)
    requires g.visited <= f.visited + Image(ToSet(level), web.Lists())
    ensures Bounded(web, cfg, isAsset, base, depth + 1, fetched + level, g.next, g.visited)
  {
    hide Ball, LeadsTo, KeysIn;
    var hops := LeadsTo(web, cfg, isAsset, web.normalize(base));
    BallMonotone({base}, hops, depth, cfg.maxDepth);
    assert ToSet(fetched + level) == ToSet(fetched) + ToSet(level);
    assert Image(ToSet(level), web.Lists()) <= Image(Ball({base}, hops, cfg.maxDepth), web.Lists());
    if depth == cfg.maxDepth {
      assert ToSet(g.next) == {};
    } else {
      forall k | k in ToSet(g.next)
        ensures k in Ball({base}, hops, depth + 1)
      {
        var u := NextIsLedTo(web, cfg, isAsset, web.normalize(base), depth, level, f, g, k);
        BallStep({base}, hops, depth, u, k);
      }
    }
  }

  lemma NextIsLedTo(web: Web, cfg: Settings, isAsset: string -> bool, baseKey: string, depth: nat,
                    level: seq<string>, f: Found, g: Found, k: string)
    returns (u: string)
    requires baseKey in f.visited && k in ToSet(g.next)
    requires f.next == [] && Grows(web, cfg, f, g) && QueuesPages(cfg, depth, isAsset, g.next)
    requires g.visited <= f.visited + Image(ToSet(level), web.Lists())
    ensures u in ToSet(level) && k in LeadsTo(web, cfg, isAsset, baseKey)(u)
  {
    hide KeysIn;
    var i :| 0 <= i < |g.next| && g.next[i] == k;
    u :| u in ToSet(level) && k in web.Lists()(u);
  }

  lemma ListedAreNormal(web: Web, pages: set<string>)
    requires web.FilterIsNormal()
    ensures forall k :: k in Image(pages, web.Lists()) ==> web.normalize(k) == k
  {
    forall k | k in Image(pages, web.Lists())
      ensures web.normalize(k) == k
    {
      var u :| u in pages && k in web.Lists()(u);
    }
  }

  lemma PlanGrows(web: Web, cfg: Settings, base: string, fetched: seq<string>, level: seq<string>, f: Found, g: Found)
    requires Planned(web, cfg, base, fetched + level, f.visited) && web.normalize(base) in f.visited
    requires f.next == [] && Grows(web, cfg, f, g)
    requires g.visited <= f.visited + Image(ToSet(level), web.Lists())
    ensures Planned(web, cfg, base, fetched + level + g.next, g.visited)
  {
    hide Image, Web.FilterIsNormal, KeysIn, MayFetch;
    var plan := fetched + level;
    if web.FilterIsNormal() {
      ListedAreNormal(web, ToSet(level));
    }
    assert (plan + g.next)[1..] == plan[1..] + g.next;
    assert forall i :: 0 <= i < |plan[1..]| ==> plan[1..][i] == plan[i + 1];
    NoDuplicatesConcat(plan[1..], g.next);
    forall i | 0 < i < |plan + g.next|
      ensures (plan + g.next)[i] in g.visited && (plan + g.next)[i] != web.normalize(base)
      ensures MayFetch(web, cfg, (plan + g.next)[i])
    {
      if i >= |plan| {
        assert (plan + g.next)[i] == g.next[i - |plan|];
      }
    }
  }

  lemma ExactGrows(web: Web, cfg: Settings, isAsset: string -> bool, base: string, depth: nat,
                   fetched: seq<string>, level: seq<string>, f: Found, g: Found)
    requires Exact(web, cfg, isAsset, base, depth, fetched, level, f.visited) && depth <= cfg.maxDepth
    requires f.next == [] && AllAdded(web, cfg, depth, isAsset, f, g, Image(ToSet(level), web.Lists()))
    ensures Exact(web, cfg, isAsset, base, depth + 1, fetched + level, g.next, g.visited)
  {
    hide Image, LeadsTo, Ball;
    var lists, baseKey := web.Lists(), web.normalize(base);
    var hops := LeadsTo(web, cfg, isAsset, baseKey);
    assert ToSet(fetched + level) == ToSet(fetched) + ToSet(level);
    ImageOfUnion(ToSet(fetched), ToSet(level), lists);
    if depth < cfg.maxDepth {
      NextLevel(web, cfg, isAsset, baseKey, ToSet(fetched), ToSet(level), f.visited);
      ImageOfUnion(ToSet(fetched), ToSet(level), hops);
      BallUnfolds({base}, hops, depth, ToSet(fetched));
    }
  }

  lemma BallUnfolds(seeds: set<string>, hops: string -> set<string>, depth: nat, inner: set<string>)
    requires inner == if depth == 0 then {} else Ball(seeds, hops, depth - 1)
    ensures Ball(seeds, hops, depth + 1) == Ball(seeds, hops, depth) + Image(Ball(seeds, hops, depth), hops)
    ensures Image(inner, hops) <= Ball(seeds, hops, depth)
  {
  }

  lemma ImageOfUnion(a: set<string>, b: set<string>, next: string -> set<string>)
    ensures Image(a + b, next) == Image(a, next) + Image(b, next)
  {
  }

  /** The keys new on this level and fetchable are the pages that its pages lead on to, save those that
      earlier pages led to. */
  lemma NextLevel(web: Web, cfg: Settings, isAsset: string -> bool, baseKey: string,
                  fetched: set<string>, level: set<string>, visited: set<string>)
    requires visited == {baseKey} + Image(fetched, web.Lists())
    ensures var hops := LeadsTo(web, cfg, isAsset, baseKey);
      Image(fetched, hops) + Image(level, hops)
      == Image(fetched, hops)
         + set k | k in Image(level, web.Lists()) && k !in visited && Fetchable(web, cfg, isAsset, k)
  {
    var hops := LeadsTo(web, cfg, isAsset, baseKey);
    forall k | k in Image(level, hops)
      ensures k in Image(fetched, hops) || (k in Image(level, web.Lists()) && k !in visited)
    {
      var u :| u in level && k in hops(u);
      assert k in web.Lists()(u);
      if k in visited {
        var v :| v in fetched && k in web.Lists()(v);
        assert k in hops(v);
      }
    }
    forall k | k in Image(level, web.Lists()) && k !in visited && Fetchable(web, cfg, isAsset, k)
      ensures k in Image(level, hops)
    {
      var u :| u in level && k in web.Lists()(u);
      assert k in hops(u);
    }
  }

  /** What the result is when nothing cuts the crawl short: a closed form in which no order occurs. */
  ghost function Everything(web: Web, cfg: Settings, isAsset: string -> bool, base: string,
                            start: set<string>): set<string>
  {
    var baseKey := web.normalize(base);
    start + (Image(Ball({base}, LeadsTo(web, cfg, isAsset, baseKey), cfg.maxDepth), web.Lists()) - {baseKey})
  }

  lemma ExactAtEnd(web: Web, cfg: Settings, isAsset: string -> bool, base: string, start: set<string>, depth: nat,
                   fetched: seq<string>, frontier: seq<string>, visited: set<string>, urls: set<string>)
    requires Exact(web, cfg, isAsset, base, depth, fetched, frontier, visited)
    requires 0 < depth && (depth == cfg.maxDepth + 1 || (depth <= cfg.maxDepth && frontier == []))
    requires Reported(base, web.normalize(base), start, visited, urls)
    ensures urls == Everything(web, cfg, isAsset, base, start)
    ensures ToSet(fetched) == Ball({base}, LeadsTo(web, cfg, isAsset, web.normalize(base)), cfg.maxDepth)
  {
    hide Ball, Image, LeadsTo;
    var baseKey := web.normalize(base);
    var hops := LeadsTo(web, cfg, isAsset, baseKey);
    if depth <= cfg.maxDepth {
      assert ToSet(frontier) == {};
      assert Ball({base}, hops, depth) == Ball({base}, hops, depth - 1);
      BallStops({base}, hops, depth - 1, cfg.maxDepth);
    }
    assert visited - {baseKey} == Image(ToSet(fetched), web.Lists()) - {baseKey};
  }

  /** Some first few pages, and not all only if these fill the cap. */
  ghost predicate TakenInOrder(base: string, keys: seq<Option<string>>, maxUrls: nat, urls: set<string>)
  {
    exists n :: 0 <= n <= |keys| && urls == {base} + FromSitemaps(keys[..n]) && (n < |keys| ==> |urls| >= maxUrls)
  }

  /** Fills up with what the filter made of the pages the sitemaps declared. */
  method AddSitemapPages(base: string, keys: seq<Option<string>>, maxUrls: nat) returns (urls: set<string>)
    requires 1 <= maxUrls
    ensures base in urls && urls <= {base} + FromSitemaps(keys) && |urls| <= maxUrls
    ensures |urls| < maxUrls ==> urls == {base} + FromSitemaps(keys)
    ensures TakenInOrder(base, keys, maxUrls, urls)
  {
    hide FromSitemaps;
    NoSitemaps(keys);
    urls := {base};
    for i := 0 to |keys|
      invariant base in urls && urls <= {base} + FromSitemaps(keys) && |urls| <= maxUrls
      invariant urls == {base} + FromSitemaps(keys[..i])
    {
      FromSitemapsSnoc(keys, i);
      if |urls| >= maxUrls {
        return;
      }
      if keys[i].Some? {
        urls := urls + {keys[i].value};
      }
    }
    assert keys[..|keys|] == keys;
  }

  /** The invariant of the crawl phase, between levels. */
  ghost predicate Crawling(web: Web, cfg: Settings, base: string, start: set<string>, isAsset: string -> bool,
                           late: nat -> bool, depth: nat, fetched: seq<string>, frontier: seq<string>,
                           visited: set<string>, urls: set<string>)
  {
    && Planned(web, cfg, base, fetched + frontier, visited) && NoDuplicates(frontier)
    && Reported(base, web.normalize(base), start, visited, urls)
    && (|urls| < cfg.maxUrls && (forall n: nat :: !late(n)) && web.AssetByKey(isAsset) ==>
          Exact(web, cfg, isAsset, base, depth, fetched, frontier, visited))
    && (web.AssetByKey(isAsset) ==> Bounded(web, cfg, isAsset, base, depth, fetched, frontier, visited))
  }

  lemma CrawlingStarts(web: Web, cfg: Settings, base: string, start: set<string>, isAsset: string -> bool,
                       late: nat -> bool)
    ensures Crawling(web, cfg, base, start, isAsset, late, 0, [], [base], {web.normalize(base)}, start)
  {
    assert [] + [base] == [base];
    ExactStarts(web, cfg, base, isAsset);
    BoundedStarts(web, cfg, isAsset, base);
    hide Exact, Bounded;
  }

  lemma ExactStarts(web: Web, cfg: Settings, base: string, isAsset: string -> bool)
    ensures Exact(web, cfg, isAsset, base, 0, [], [base], {web.normalize(base)})
  {
    hide KeysIn;
    var none: seq<string> := [];
    assert ToSet(none) == {} && Image(ToSet(none), web.Lists()) == {};
    assert ToSet([base]) == {base};
  }

  lemma LevelKeepsCrawling(web: Web, cfg: Settings, base: string, start: set<string>, isAsset: string -> bool,
                           late: nat -> bool, depth: nat, fetched: seq<string>, level: seq<string>, f: Found, g: Found)
    requires Crawling(web, cfg, base, start, isAsset, late, depth, fetched, level, f.visited, f.urls)
    requires depth <= cfg.maxDepth && f.next == [] && |f.urls| < cfg.maxUrls
    requires Grows(web, cfg, f, g) && g.visited <= f.visited + Image(ToSet(level), web.Lists())
    requires (forall n: nat :: !late(n)) && |g.urls| < cfg.maxUrls && web.AssetByKey(isAsset) ==>
      AllAdded(web, cfg, depth, isAsset, f, g, Image(ToSet(level), web.Lists()))
    requires web.AssetByKey(isAsset) ==> QueuesPages(cfg, depth, isAsset, g.next)
    ensures Crawling(web, cfg, base, start, isAsset, late, depth + 1, fetched + level, g.next, g.visited, g.urls)
    ensures |g.urls| <= cfg.maxUrls
  {
    hide Planned, Exact, Bounded, Grows, AllAdded, QueuesPages, Web.AssetByKey, Image;
    GrowsFacts(web, cfg, base, start, f, g);
    PlanGrows(web, cfg, base, fetched, level, f, g);
    if web.AssetByKey(isAsset) {
      BoundedGrows(web, cfg, isAsset, base, depth, fetched, level, f, g);
    }
    if |g.urls| < cfg.maxUrls && (forall n: nat :: !late(n)) && web.AssetByKey(isAsset) {
      ExactGrows(web, cfg, isAsset, base, depth, fetched, level, f, g);
    }
  }

  // ----- what an uncut crawl can report -----

  /** From the state before level `depth`, its frontier in `f.next`, some orders of landing report `result`. */
  ghost predicate CanReport(web: Web, cfg: Settings, depth: nat, f: Found, result: set<string>)
    decreases cfg.maxDepth + 1 - depth
  {
    if depth > cfg.maxDepth || f.next == [] then result == f.urls
    else exists order :: LandsAs(web, cfg, depth, f, order, result)
  }

  ghost predicate LandsAs(web: Web, cfg: Settings, depth: nat, f: Found, order: seq<string>, result: set<string>)
    requires depth <= cfg.maxDepth
    decreases cfg.maxDepth + 1 - depth, 0
  {
    && multiset(order) == multiset(f.next)
    && CanReport(web, cfg, depth + 1, MergeInOrder(web, cfg, depth, f.(next := []), order), result)
  }

  /** Whatever can be reported from here could be reported from the start. */
  ghost predicate Continues(web: Web, cfg: Settings, base: string, start: set<string>, depth: nat, f: Found)
  {
    forall result :: CanReport(web, cfg, depth, f, result) ==>
      CanReport(web, cfg, 0, Found({web.normalize(base)}, start, [base]), result)
  }

  lemma LevelContinues(web: Web, cfg: Settings, base: string, start: set<string>, depth: nat, f: Found,
                       order: seq<string>)
    requires Continues(web, cfg, base, start, depth, f) && depth <= cfg.maxDepth && f.next != []
    requires multiset(order) == multiset(f.next)
    ensures Continues(web, cfg, base, start, depth + 1, MergeInOrder(web, cfg, depth, f.(next := []), order))
  {
    hide MergeInOrder;
    var g := MergeInOrder(web, cfg, depth, f.(next := []), order);
    forall result | CanReport(web, cfg, depth + 1, g, result)
      ensures CanReport(web, cfg, depth, f, result)
    {
      assert LandsAs(web, cfg, depth, f, order, result);
    }
  }

  lemma UncutCrawlCanReport(web: Web, cfg: Settings, base: string, start: set<string>, depth: nat, f: Found)
    requires Continues(web, cfg, base, start, depth, f) && (depth > cfg.maxDepth || f.next == [])
    ensures CanReport(web, cfg, 0, Found({web.normalize(base)}, start, [base]), f.urls)
  {
    assert CanReport(web, cfg, depth, f, f.urls);
  }

  // ----- what a crawl under a clock can report -----

  /** From the state before level `depth`, its frontier in `f.next` and the clock read `t` times, some orders of
      landing report `result`. The crawl has been cut if `cut`. */
  ghost predicate CanEnd(web: Web, cfg: Settings, late: nat -> bool, t: nat, depth: nat, cut: bool, f: Found,
                         result: set<string>)
    decreases cfg.maxDepth + 1 - depth
  {
    if cut || depth > cfg.maxDepth || f.next == [] then result == f.urls
    else exists order, landed :: EndsAs(web, cfg, late, t, depth, f, order, landed, result)
  }

  /** The level lands in this order until it is cut or done; the cap and the clock are looked at once more. */
  ghost predicate EndsAs(web: Web, cfg: Settings, late: nat -> bool, t: nat, depth: nat, f: Found,
                         order: seq<string>, landed: nat, result: set<string>)
    requires depth <= cfg.maxDepth
    decreases cfg.maxDepth + 1 - depth, 0
  {
    && multiset(order) == multiset(f.next)
    && LandsUntil(web, cfg, late, t, depth, f.(next := []), order, landed)
    && var g := MergeInOrder(web, cfg, depth, f.(next := []), order[..landed]);
       var next := TimeAfter(cfg, t, |order|, landed, g);
       CanEnd(web, cfg, late, next, depth + 1, |g.urls| >= cfg.maxUrls || late(next), g, result)
  }

  /** One reading for each page that landed, one for the page that came too late, one behind the level. */
  function TimeAfter(cfg: Settings, t: nat, pages: nat, landed: nat, g: Found): nat
  {
    t + landed + (if landed < pages && |g.urls| < cfg.maxUrls then 1 else 0) + 1
  }

  /** Whatever can be reported from here could be reported from the start. */
  ghost predicate EndContinues(web: Web, cfg: Settings, late: nat -> bool, base: string, start: set<string>,
                               t: nat, depth: nat, cut: bool, f: Found)
  {
    forall result :: CanEnd(web, cfg, late, t, depth, cut, f, result) ==>
      CanEnd(web, cfg, late, 0, 0, false, Found({web.normalize(base)}, start, [base]), result)
  }

  lemma EndContinuesAtStart(web: Web, cfg: Settings, late: nat -> bool, base: string, start: set<string>)
    ensures EndContinues(web, cfg, late, base, start, 0, 0, false, Found({web.normalize(base)}, start, [base]))
  {
  }

  lemma LevelEndContinues(web: Web, cfg: Settings, late: nat -> bool, base: string, start: set<string>,
                          t: nat, depth: nat, f: Found, order: seq<string>, landed: nat)
    requires EndContinues(web, cfg, late, base, start, t, depth, false, f) && depth <= cfg.maxDepth && f.next != []
    requires multiset(order) == multiset(f.next) && landed <= |order|
    requires LandsUntil(web, cfg, late, t, depth, f.(next := []), order, landed)
    ensures var g := MergeInOrder(web, cfg, depth, f.(next := []), order[..landed]);
      var next := TimeAfter(cfg, t, |order|, landed, g);
      EndContinues(web, cfg, late, base, start, next, depth + 1, |g.urls| >= cfg.maxUrls || late(next), g)
  {
    hide MergeInOrder, LandsUntil, TimeAfter;
    var g := MergeInOrder(web, cfg, depth, f.(next := []), order[..landed]);
    var next := TimeAfter(cfg, t, |order|, landed, g);
    forall result | CanEnd(web, cfg, late, next, depth + 1, |g.urls| >= cfg.maxUrls || late(next), g, result)
      ensures CanEnd(web, cfg, late, t, depth, false, f, result)
    {
      assert EndsAs(web, cfg, late, t, depth, f, order, landed, result);
    }
  }

  lemma FullEnds(web: Web, cfg: Settings, late: nat -> bool, base: string, start: set<string>,
                 t: nat, depth: nat, f: Found)
    requires EndContinues(web, cfg, late, base, start, t, depth, false, f) && depth <= cfg.maxDepth && f.next != []
    requires |f.urls| >= cfg.maxUrls
    ensures CanEnd(web, cfg, late, 0, 0, false, Found({web.normalize(base)}, start, [base]), f.urls)
  {
    var g := f.(next := []);
    assert f.next[..0] == [];
    assert MergeInOrder(web, cfg, depth, g, f.next[..0]) == g;
    NothingLanded(web, cfg, late, t, depth, g, f.next);
    LevelEndContinues(web, cfg, late, base, start, t, depth, f, f.next, 0);
    var next := TimeAfter(cfg, t, |f.next|, 0, g);
    assert CanEnd(web, cfg, late, next, depth + 1, |g.urls| >= cfg.maxUrls || late(next), g, f.urls);
  }

  lemma EndIsReached(web: Web, cfg: Settings, late: nat -> bool, base: string, start: set<string>,
                     t: nat, depth: nat, cut: bool, f: Found)
    requires EndContinues(web, cfg, late, base, start, t, depth, cut, f)
    requires cut || depth > cfg.maxDepth || f.next == []
    ensures CanEnd(web, cfg, late, 0, 0, false, Found({web.normalize(base)}, start, [base]), f.urls)
  {
    assert CanEnd(web, cfg, late, t, depth, cut, f, f.urls);
  }

  /** What the crawl phase promises at its end. */
  ghost predicate Crawled(web: Web, cfg: Settings, base: string, start: set<string>, isAsset: string -> bool,
                          late: nat -> bool, fetched: seq<string>, urls: set<string>)
  {
    // Always, whatever order the pages land in and whatever cuts the crawl short.
    && start <= urls
    && (web.FilterIsNormal() ==> DistinctKeys(web, fetched))
    && (forall i :: 0 < i < |fetched| ==>
          fetched[i] in urls && (cfg.respectRobots ==> web.fetchAllowed(fetched[i])))
    && (web.AssetByKey(isAsset) ==>
          && urls <= Everything(web, cfg, isAsset, base, start)
          && ToSet(fetched) <= Ball({base}, LeadsTo(web, cfg, isAsset, web.normalize(base)), cfg.maxDepth))
    // Neither cap nor clock: a set that no order of landing can change.
    && (|urls| < cfg.maxUrls && (forall n: nat :: !late(n)) && web.AssetByKey(isAsset) ==>
          && urls == Everything(web, cfg, isAsset, base, start)
          && ToSet(fetched) == Ball({base}, LeadsTo(web, cfg, isAsset, web.normalize(base)), cfg.maxDepth))
  }

  lemma CrawlingEnds(web: Web, cfg: Settings, base: string, start: set<string>, isAsset: string -> bool,
                     late: nat -> bool, depth: nat, fetched: seq<string>, frontier: seq<string>,
                     visited: set<string>, urls: set<string>, cut: bool)
    requires Crawling(web, cfg, base, start, isAsset, late, depth, fetched, frontier, visited, urls)
    requires cut ==> |urls| >= cfg.maxUrls || exists n: nat :: late(n)
    requires !cut ==> 0 < depth && (depth == cfg.maxDepth + 1 || (depth <= cfg.maxDepth && frontier == []))
    ensures Crawled(web, cfg, base, start, isAsset, late, fetched, urls)
  {
    hide Exact, Everything, Bounded, Ball, LeadsTo;
    if web.AssetByKey(isAsset) {
      BoundedAtEnd(web, cfg, isAsset, base, start, depth, fetched, frontier, visited, urls);
    }
    PlannedFacts(web, cfg, base, fetched, frontier, visited);
    if |urls| < cfg.maxUrls && (forall n: nat :: !late(n)) && web.AssetByKey(isAsset) {
      ExactAtEnd(web, cfg, isAsset, base, start, depth, fetched, frontier, visited, urls);
    }
  }

  lemma BoundedAtEnd(web: Web, cfg: Settings, isAsset: string -> bool, base: string, start: set<string>, depth: nat,
                     fetched: seq<string>, frontier: seq<string>, visited: set<string>, urls: set<string>)
    requires Bounded(web, cfg, isAsset, base, depth, fetched, frontier, visited)
    requires Reported(base, web.normalize(base), start, visited, urls)
    ensures urls <= Everything(web, cfg, isAsset, base, start)
    ensures ToSet(fetched) <= Ball({base}, LeadsTo(web, cfg, isAsset, web.normalize(base)), cfg.maxDepth)
  {
    hide Ball, Image, LeadsTo;
  }

  /** If everything there is fits under the cap and the clock does not run out, every order of landing
      reports just that. */
  lemma EveryOrderFindsEverything(web: Web, cfg: Settings, base: string, start: set<string>, isAsset: string -> bool,
                                  late: nat -> bool, fetched: seq<string>, urls: set<string>)
    requires Crawled(web, cfg, base, start, isAsset, late, fetched, urls) && web.AssetByKey(isAsset)
    requires |Everything(web, cfg, isAsset, base, start)| < cfg.maxUrls && forall n: nat :: !late(n)
    ensures urls == Everything(web, cfg, isAsset, base, start)
  {
    hide Everything, Web.AssetByKey, Web.FilterIsNormal;
    SubsetCount(urls, Everything(web, cfg, isAsset, base, start));
  }

  method CrawlPhase(web: Web, cfg: Settings, base: string, start: set<string>, late: nat -> bool,
                    ghost isAsset: string -> bool)
    returns (urls: set<string>, ghost fetched: seq<string>)
    requires |start| <= cfg.maxUrls
    ensures |urls| <= cfg.maxUrls && Crawled(web, cfg, base, start, isAsset, late, fetched, urls)
    ensures |urls| < cfg.maxUrls && (forall n: nat :: !late(n)) ==>
      CanReport(web, cfg, 0, Found({web.normalize(base)}, start, [base]), urls)
    ensures CanEnd(web, cfg, late, 0, 0, false, Found({web.normalize(base)}, start, [base]), urls)
  {
    hide Crawling, Crawled, Grows, AllAdded, Image, Web.AssetByKey, CanReport, Continues, MergeInOrder, QueuesPages;
    hide CanEnd, EndContinues, LandsUntil;
    urls, fetched := start, [];
    var visited := {web.normalize(base)};
    var frontier := [base];
    var t, depth := 0, 0;
    var cut := false;
    CrawlingStarts(web, cfg, base, start, isAsset, late);
    ContinuesAtStart(web, cfg, base, start);
    EndContinuesAtStart(web, cfg, late, base, start);
    ghost var full := false;
    while depth <= cfg.maxDepth && frontier != [] && !cut
      invariant depth <= cfg.maxDepth + 1 && (!cut && depth == 0 ==> frontier != [])
      invariant |urls| <= cfg.maxUrls
      invariant Crawling(web, cfg, base, start, isAsset, late, depth, fetched, frontier, visited, urls)
      invariant cut ==> |urls| >= cfg.maxUrls || exists n: nat :: late(n)
      invariant |urls| < cfg.maxUrls && (forall n: nat :: !late(n)) ==>
        Continues(web, cfg, base, start, depth, Found(visited, urls, frontier))
      invariant !full ==> EndContinues(web, cfg, late, base, start, t, depth, cut, Found(visited, urls, frontier))
      invariant full ==> cut && CanEnd(web, cfg, late, 0, 0, false, Found({web.normalize(base)}, start, [base]), urls)
      decreases !cut, cfg.maxDepth + 1 - depth
    {
      if |urls| >= cfg.maxUrls {
        // Already full: the level is started, and dropped unread at its first landing.
        FullEnds(web, cfg, late, base, start, t, depth, Found(visited, urls, frontier));
        cut, full := true, true;
        MoveFrontier(web, cfg, base, start, isAsset, late, depth, fetched, frontier, visited, urls);
        fetched, frontier := fetched + frontier, [];
      } else {
        FrontierIsDistinct(web, cfg, base, start, isAsset, late, depth, fetched, frontier, visited, urls);
        var f := Found(visited, urls, []);
        var g;
        ghost var order, landed, t0 := [], 0, t;
        g, t, order, landed := MergeLevel(web, cfg, depth, f, frontier, late, t, isAsset);
        assert Found(visited, urls, frontier).(next := []) == f;
        LevelEndContinues(web, cfg, late, base, start, t0, depth, Found(visited, urls, frontier), order, landed);
        if |g.urls| < cfg.maxUrls && (forall n: nat :: !late(n)) {
          assert order[..landed] == order && Found(visited, urls, frontier).(next := []) == f;
          LevelContinues(web, cfg, base, start, depth, Found(visited, urls, frontier), order);
        }
        LevelKeepsCrawling(web, cfg, base, start, isAsset, late, depth, fetched, frontier, f, g);
        fetched := fetched + frontier;
        visited, urls, frontier := g.visited, g.urls, g.next;
        depth := depth + 1;
        t := t + 1;
        cut := |urls| >= cfg.maxUrls || late(t);
      }
    }
    CrawlingEnds(web, cfg, base, start, isAsset, late, depth, fetched, frontier, visited, urls, cut);
    if !full {
      EndIsReached(web, cfg, late, base, start, t, depth, cut, Found(visited, urls, frontier));
    }
    if |urls| < cfg.maxUrls && (forall n: nat :: !late(n)) {
      UncutCrawlCanReport(web, cfg, base, start, depth, Found(visited, urls, frontier));
    }
  }

  lemma ContinuesAtStart(web: Web, cfg: Settings, base: string, start: set<string>)
    ensures Continues(web, cfg, base, start, 0, Found({web.normalize(base)}, start, [base]))
  {
  }

  lemma MoveFrontier(web: Web, cfg: Settings, base: string, start: set<string>, isAsset: string -> bool,
                     late: nat -> bool, depth: nat, fetched: seq<string>, frontier: seq<string>,
                     visited: set<string>, urls: set<string>)
    requires Crawling(web, cfg, base, start, isAsset, late, depth, fetched, frontier, visited, urls)
    requires |urls| >= cfg.maxUrls && depth <= cfg.maxDepth
    ensures Crawling(web, cfg, base, start, isAsset, late, depth, fetched + frontier, [], visited, urls)
  {
    hide Ball, LeadsTo, Image, KeysIn;
    assert fetched + frontier + [] == fetched + frontier;
    BallMonotone({base}, LeadsTo(web, cfg, isAsset, web.normalize(base)), depth, cfg.maxDepth);
    assert ToSet(fetched + frontier) == ToSet(fetched) + ToSet(frontier);
  }

  lemma FrontierIsDistinct(web: Web, cfg: Settings, base: string, start: set<string>, isAsset: string -> bool,
                           late: nat -> bool, depth: nat, fetched: seq<string>, frontier: seq<string>,
                           visited: set<string>, urls: set<string>)
    requires Crawling(web, cfg, base, start, isAsset, late, depth, fetched, frontier, visited, urls)
    ensures NoDuplicates(frontier)
  {
  }

  /** The whole call. `sitemapKeys` is what the filter made of each page the sitemaps declared. */
  method DiscoverUrls(web: Web, base: string, requestedUrls: nat, requestedDepth: nat, respectRobots: bool,
                      sitemapKeys: seq<Option<string>>, crawlFallback: bool, late: nat -> bool,
                      ghost isAsset: string -> bool)
    returns (urls: set<string>, ghost start: set<string>, ghost fetched: seq<string>)
    ensures base in urls && |urls| <= UrlCap(requestedUrls)
    ensures start <= {base} + FromSitemaps(sitemapKeys)
    ensures TakenInOrder(base, sitemapKeys, UrlCap(requestedUrls), start)
    ensures |start| < UrlCap(requestedUrls) ==> start == {base} + FromSitemaps(sitemapKeys)
    ensures !crawlFallback ==> urls == start && fetched == []
    ensures crawlFallback ==>
      Crawled(web, Settings(UrlCap(requestedUrls), Min(requestedDepth, 10), respectRobots),
              base, start, isAsset, late, fetched, urls)
    ensures crawlFallback ==>
      CanEnd(web, Settings(UrlCap(requestedUrls), Min(requestedDepth, 10), respectRobots), late, 0, 0, false,
             Found({web.normalize(base)}, start, [base]), urls)
    ensures crawlFallback && web.AssetByKey(isAsset) && (forall n: nat :: !late(n)) ==>
      var cfg := Settings(UrlCap(requestedUrls), Min(requestedDepth, 10), respectRobots);
      var all := Everything(web, cfg, isAsset, base, {base} + FromSitemaps(sitemapKeys));
      |all| < UrlCap(requestedUrls) ==> urls == all
  {
    hide Crawled, Everything, FromSitemaps, Web.AssetByKey, CanEnd, CanReport, TakenInOrder;
    var maxUrls := UrlCap(requestedUrls);
    var cfg := Settings(maxUrls, Min(requestedDepth, MAX_DEPTH_CEILING), respectRobots);
    urls := AddSitemapPages(base, sitemapKeys, maxUrls);
    start, fetched := urls, [];
    if crawlFallback {
      urls, fetched := CrawlPhase(web, cfg, base, urls, late, isAsset);
      ghost var pages := {base} + FromSitemaps(sitemapKeys);
      CrawledKeepsStart(web, cfg, base, start, isAsset, late, fetched, urls);
      StartIsReported(web, cfg, isAsset, base, start, pages);
      if web.AssetByKey(isAsset) && (forall n: nat :: !late(n))
          && |Everything(web, cfg, isAsset, base, pages)| < maxUrls {
        EveryOrderFindsEverything(web, cfg, base, start, isAsset, late, fetched, urls);
      }
    }
  }

  lemma CrawledKeepsStart(web: Web, cfg: Settings, base: string, start: set<string>, isAsset: string -> bool,
                          late: nat -> bool, fetched: seq<string>, urls: set<string>)
    requires Crawled(web, cfg, base, start, isAsset, late, fetched, urls)
    ensures start <= urls
  {
  }

  lemma StartIsReported(web: Web, cfg: Settings, isAsset: string -> bool, base: string, start: set<string>,
                        pages: set<string>)
    requires start <= pages
    ensures |start| <= |Everything(web, cfg, isAsset, base, pages)|
  {
    SubsetCount(start, Everything(web, cfg, isAsset, base, pages));
  }

  lemma NoSitemaps(keys: seq<Option<string>>)
    ensures FromSitemaps(keys[..0]) == {}
  {
  }

  ghost function FromSitemaps(keys: seq<Option<string>>): set<string>
  {
    set k | k in keys && k.Some? :: k.value
  }

  lemma FromSitemapsSnoc(keys: seq<Option<string>>, i: nat)
    requires i < |keys|
    ensures FromSitemaps(keys[..i + 1])
         == FromSitemaps(keys[..i]) + if keys[i].Some? then {keys[i].value} else {}
    ensures keys[i].Some? ==> keys[i].value in FromSitemaps(keys)
  {
    assert forall k :: k in keys[..i + 1] <==> k in keys[..i] || k == keys[i];
    assert keys[i] in keys;
  }

  lemma PlannedFacts(web: Web, cfg: Settings, base: string, fetched: seq<string>, level: seq<string>,
                     visited: set<string>)
    requires Planned(web, cfg, base, fetched + level, visited)
    ensures web.FilterIsNormal() ==> DistinctKeys(web, fetched)
    ensures forall i :: 0 < i < |fetched| ==>
      fetched[i] in visited - {web.normalize(base)} && MayFetch(web, cfg, fetched[i])
  {
    hide Web.FilterIsNormal, MayFetch;
    var plan := fetched + level;
    assert forall i :: 0 <= i < |fetched| ==> fetched[i] == plan[i];
    assert forall i :: 0 < i < |plan| ==> plan[i] == plan[1..][i - 1];
  }

  lemma GrowsFacts(web: Web, cfg: Settings, base: string, start: set<string>, f: Found, g: Found)
    requires Grows(web, cfg, f, g) && Reported(base, web.normalize(base), start, f.visited, f.urls)
    ensures Reported(base, web.normalize(base), start, g.visited, g.urls)
    ensures |g.urls| <= Max(|f.urls|, cfg.maxUrls)
    ensures f.next == [] ==> NoDuplicates(g.next)
  {
  }
}
