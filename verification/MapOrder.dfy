/** When the order in which pages land decides what map discovery finds. A key can be linked to as a static
    asset by one page and as a page by another, since the asset test sees the link as written: `/a.jpg` is an
    asset, `/a.jpg/` is not, and both have the key of the first. */
module MapOrder {
  import opened MapDiscovery
  import opened Reach
  import opened Sequences
  import opened Text

  // ----- one level -----

  /** Whether the first listing of a key on a page is as an asset; None if it lists no such key. */
  function FirstStatus(links: seq<Link>, k: string): Option<bool>
  {
    if links == [] then None
    else if links[0].Listed() && links[0].key.value == k then Some(links[0].asset)
    else FirstStatus(links[1..], k)
  }

  /** The status on the first page, in order, that lists the key. */
  function StatusInOrder(web: Web, order: seq<string>, k: string): Option<bool>
  {
    if order == [] then None
    else
      var before := StatusInOrder(web, order[..|order| - 1], k);
      if before.Some? then before else FirstStatus(web.LinksOf(order[|order| - 1]), k)
  }

  /** `k` was there before, or its first listing is as a page that may be fetched. */
  predicate IsQueued(web: Web, cfg: Settings, depth: nat, f: Found, status: Option<bool>, k: string)
  {
    k in f.next || (k !in f.visited && depth < cfg.maxDepth && MayFetch(web, cfg, k) && status == Some(false))
  }

  lemma {:induction false} AddLinksQueues(web: Web, cfg: Settings, depth: nat, f: Found, links: seq<Link>,
                                          room: set<string>, k: string)
    requires f.urls + KeysIn(links) <= room && |room| < cfg.maxUrls
    ensures var g := AddLinks(web, cfg, depth, f, links);
      && g.urls <= f.urls + KeysIn(links)
      && (k in g.visited <==> k in f.visited || FirstStatus(links, k).Some?)
      && (k in g.next <==> IsQueued(web, cfg, depth, f, FirstStatus(links, k), k))
    decreases |links|
  {
    if links != [] {
      var l, rest := links[0], links[1..];
      assert links == [l] + rest;
      KeysInCons(l, rest);
      hide KeysIn;
      if !New(f, l) {
        AddLinksQueues(web, cfg, depth, f, rest, room, k);
      } else {
        var (g, full) := AddLink(web, cfg, depth, f, l);
        SubsetCount(g.urls, room);
        AddLinksQueues(web, cfg, depth, g, rest, room, k);
      }
    }
  }

  lemma {:induction false} LandingQueues(web: Web, cfg: Settings, depth: nat, f: Found, order: seq<string>,
                                         room: set<string>, k: string)
    requires f.urls + Image(ToSet(order), web.Lists()) <= room && |room| < cfg.maxUrls
    ensures var g := MergeInOrder(web, cfg, depth, f, order);
      && g.urls <= f.urls + Image(ToSet(order), web.Lists())
      && (k in g.visited <==> k in f.visited || StatusInOrder(web, order, k).Some?)
      && (k in g.next <==> IsQueued(web, cfg, depth, f, StatusInOrder(web, order, k), k))
  {
    hide Image, KeysIn, AddLinks;
    if order != [] {
      var init, u := order[..|order| - 1], order[|order| - 1];
      assert order == init + [u];
      ImageSnoc(init, u, web.Lists());
      LandingQueues(web, cfg, depth, f, init, room, k);
      AddLinksQueues(web, cfg, depth, MergeInOrder(web, cfg, depth, f, init), web.LinksOf(u), room, k);
    }
  }

  lemma {:induction false} StatusComesFromPage(web: Web, order: seq<string>, k: string)
    ensures StatusInOrder(web, order, k).Some? ==>
      exists u :: u in order && FirstStatus(web.LinksOf(u), k) == StatusInOrder(web, order, k)
    ensures StatusInOrder(web, order, k).None? ==> forall u :: u in order ==> FirstStatus(web.LinksOf(u), k).None?
  {
    hide FirstStatus;
    if order != [] {
      var init, last := order[..|order| - 1], order[|order| - 1];
      assert order == init + [last];
      StatusComesFromPage(web, init, k);
    }
  }

  lemma {:induction false} FirstPageDecides(web: Web, u: string, rest: seq<string>, k: string)
    requires FirstStatus(web.LinksOf(u), k).Some?
    ensures StatusInOrder(web, [u] + rest, k) == FirstStatus(web.LinksOf(u), k)
    decreases |rest|
  {
    hide FirstStatus;
    var order := [u] + rest;
    if rest == [] {
      assert order == [u] && [u][..0] == [];
    } else {
      assert order[..|order| - 1] == [u] + rest[..|rest| - 1];
      FirstPageDecides(web, u, rest[..|rest| - 1], k);
    }
  }

  /** Every new key that may be fetched has the same status at its first listing on each page of the level
      that lists it. */
  ghost predicate StatusesAgree(web: Web, cfg: Settings, f: Found, level: seq<string>)
  {
    forall k, u, v :: u in level && v in level && k !in f.visited && MayFetch(web, cfg, k)
      && FirstStatus(web.LinksOf(u), k).Some? && FirstStatus(web.LinksOf(v), k).Some?
      ==> FirstStatus(web.LinksOf(u), k) == FirstStatus(web.LinksOf(v), k)
  }

  ghost predicate SameNext(web: Web, cfg: Settings, depth: nat, f: Found, a: seq<string>, b: seq<string>)
  {
    ToSet(MergeInOrder(web, cfg, depth, f, a).next) == ToSet(MergeInOrder(web, cfg, depth, f, b).next)
  }

  /** Below the cap and the depth limit, all orders in which a level can land queue the same pages exactly
      when the level's pages agree on the status of the keys they could queue. */
  lemma NextAgreesIff(web: Web, cfg: Settings, depth: nat, f: Found, level: seq<string>)
    requires f.next == [] && depth < cfg.maxDepth
    requires |f.urls + Image(ToSet(level), web.Lists())| < cfg.maxUrls
    ensures (forall order: seq<string> :: multiset(order) == multiset(level) ==>
      SameNext(web, cfg, depth, f, order, level))
      <==> StatusesAgree(web, cfg, f, level)
  {
    hide MergeInOrder, FirstStatus, StatusInOrder, Image, KeysIn, MayFetch;
    if StatusesAgree(web, cfg, f, level) {
      forall order: seq<string> | multiset(order) == multiset(level)
        ensures SameNext(web, cfg, depth, f, order, level)
      {
        forall k
          ensures k in MergeInOrder(web, cfg, depth, f, order).next
            <==> k in MergeInOrder(web, cfg, depth, f, level).next
        {
          AgreedStatus(web, cfg, depth, f, level, order, k);
        }
      }
    } else {
      var a, b, k := DisagreementShows(web, cfg, depth, f, level);
      assert k in ToSet(MergeInOrder(web, cfg, depth, f, a).next)
          && k !in ToSet(MergeInOrder(web, cfg, depth, f, b).next);
      assert !(SameNext(web, cfg, depth, f, a, level) && SameNext(web, cfg, depth, f, b, level));
    }
  }

  lemma DisagreementShows(web: Web, cfg: Settings, depth: nat, f: Found, level: seq<string>)
    returns (a: seq<string>, b: seq<string>, k: string)
    requires f.next == [] && depth < cfg.maxDepth && !StatusesAgree(web, cfg, f, level)
    requires |f.urls + Image(ToSet(level), web.Lists())| < cfg.maxUrls
    ensures multiset(a) == multiset(b) == multiset(level)
    ensures k in MergeInOrder(web, cfg, depth, f, a).next && k !in MergeInOrder(web, cfg, depth, f, b).next
  {
    hide MergeInOrder, FirstStatus, StatusInOrder, Image, KeysIn, MayFetch;
    var u, v;
    k, u, v :| u in level && v in level && k !in f.visited && MayFetch(web, cfg, k)
      && FirstStatus(web.LinksOf(u), k).Some? && FirstStatus(web.LinksOf(v), k).Some?
      && FirstStatus(web.LinksOf(u), k) != FirstStatus(web.LinksOf(v), k);
    a := QueuedIfFirst(web, cfg, depth, f, level, u, k);
    b := QueuedIfFirst(web, cfg, depth, f, level, v, k);
    if FirstStatus(web.LinksOf(u), k).value {
      a, b := b, a;
    }
  }

  lemma AgreedStatus(web: Web, cfg: Settings, depth: nat, f: Found, level: seq<string>, order: seq<string>, k: string)
    requires multiset(order) == multiset(level) && StatusesAgree(web, cfg, f, level)
    requires f.next == [] && |f.urls + Image(ToSet(level), web.Lists())| < cfg.maxUrls
    ensures k in MergeInOrder(web, cfg, depth, f, order).next <==> k in MergeInOrder(web, cfg, depth, f, level).next
  {
    hide MergeInOrder, FirstStatus, StatusInOrder, Image, MayFetch;
    var room := f.urls + Image(ToSet(level), web.Lists());
    SameElements(order, level);
    assert ToSet(order) == ToSet(level);
    LandingQueues(web, cfg, depth, f, order, room, k);
    LandingQueues(web, cfg, depth, f, level, room, k);
    StatusComesFromPage(web, order, k);
    StatusComesFromPage(web, level, k);
  }

  lemma QueuedIfFirst(web: Web, cfg: Settings, depth: nat, f: Found, level: seq<string>, u: string, k: string)
    returns (order: seq<string>)
    requires u in level && FirstStatus(web.LinksOf(u), k).Some? && k !in f.visited && MayFetch(web, cfg, k)
    requires f.next == [] && depth < cfg.maxDepth && |f.urls + Image(ToSet(level), web.Lists())| < cfg.maxUrls
    ensures multiset(order) == multiset(level)
    ensures k in MergeInOrder(web, cfg, depth, f, order).next <==> !FirstStatus(web.LinksOf(u), k).value
  {
    hide MergeInOrder, FirstStatus, StatusInOrder, Image, MayFetch;
    var i :| 0 <= i < |level| && level[i] == u;
    MultisetWithout(level, i);
    order := [u] + (level[..i] + level[i + 1..]);
    SameElements(order, level);
    assert ToSet(order) == ToSet(level);
    FirstPageDecides(web, u, level[..i] + level[i + 1..], k);
    LandingQueues(web, cfg, depth, f, order, f.urls + Image(ToSet(level), web.Lists()), k);
    assert FirstStatus(web.LinksOf(u), k) == Some(FirstStatus(web.LinksOf(u), k).value);
  }

  // ----- the whole result -----

  /** At every level that an uncut crawl reaches from here, in whatever orders its levels land, the pages agree on
      statuses and the cap is out of reach. */
  ghost predicate AgreesThroughout(web: Web, cfg: Settings, depth: nat, f: Found)
    decreases cfg.maxDepth + 1 - depth
  {
    depth > cfg.maxDepth || f.next == [] || LevelAgrees(web, cfg, depth, f)
  }

  ghost predicate LevelAgrees(web: Web, cfg: Settings, depth: nat, f: Found)
    requires depth <= cfg.maxDepth
    decreases cfg.maxDepth + 1 - depth, 0
  {
    && |f.urls + Image(ToSet(f.next), web.Lists())| < cfg.maxUrls
    && (depth < cfg.maxDepth ==> StatusesAgree(web, cfg, f.(next := []), f.next))
    && forall order :: multiset(order) == multiset(f.next) ==>
         AgreesThroughout(web, cfg, depth + 1, MergeInOrder(web, cfg, depth, f.(next := []), order))
  }

  /** Two states that differ at most in the order of their frontiers. */
  ghost predicate SameButForOrder(f: Found, g: Found)
  {
    f.visited == g.visited && f.urls == g.urls && multiset(f.next) == multiset(g.next)
  }

  lemma ReportsIgnoreOrder(web: Web, cfg: Settings, depth: nat, f: Found, g: Found, result: set<string>)
    requires SameButForOrder(f, g) && CanReport(web, cfg, depth, f, result)
    ensures CanReport(web, cfg, depth, g, result)
  {
    hide MergeInOrder;
    SameElements(f.next, g.next);
    if depth <= cfg.maxDepth && f.next != [] {
      assert g.next != [];
      var order :| LandsAs(web, cfg, depth, f, order, result);
      assert f.(next := []) == g.(next := []);
      assert LandsAs(web, cfg, depth, g, order, result);
    }
  }

  lemma {:induction false} LandingGrows(web: Web, cfg: Settings, depth: nat, f: Found, order: seq<string>,
                                        room: set<string>)
    requires f.next == [] && f.urls + Image(ToSet(order), web.Lists()) <= room && |room| < cfg.maxUrls
    ensures var g := MergeInOrder(web, cfg, depth, f, order);
      Grows(web, cfg, f, g) && g.urls <= f.urls + Image(ToSet(order), web.Lists()) && ToSet(g.next) <= g.visited
  {
    hide Image, KeysIn, AddLinks, Grows;
    GrowsReflexive(web, cfg, f);
    if order == [] {
      assert ToSet(f.next) == {};
    } else {
      var init, u := order[..|order| - 1], order[|order| - 1];
      assert order == init + [u];
      ImageSnoc(init, u, web.Lists());
      LandingGrows(web, cfg, depth, f, init, room);
      LandingQueues(web, cfg, depth, f, order, room, "");
      var g := MergeInOrder(web, cfg, depth, f, init);
      SubsetCount(g.urls, room);
      AddLinksGrows(web, cfg, depth, g, web.LinksOf(u));
      assert ToSet(f.next) == {};
      GrowsTransitive(web, cfg, f, g, MergeInOrder(web, cfg, depth, f, order));
    }
  }

  lemma NoDuplicatesSameMultiset(a: seq<string>, b: seq<string>)
    requires NoDuplicates(a) && NoDuplicates(b) && ToSet(a) == ToSet(b)
    ensures multiset(a) == multiset(b)
  {
    forall x
      ensures multiset(a)[x] == multiset(b)[x]
    {
      OccursOnce(a, x);
      OccursOnce(b, x);
      assert x in ToSet(a) <==> x in multiset(a);
      assert x in ToSet(b) <==> x in multiset(b);
    }
  }

  /** Where a level agrees, its orders of landing lead to the same state. */
  lemma OrdersLeadToSameState(web: Web, cfg: Settings, depth: nat, f: Found, level: seq<string>, a: seq<string>,
                              b: seq<string>)
    requires f.next == [] && |f.urls + Image(ToSet(level), web.Lists())| < cfg.maxUrls
    requires depth < cfg.maxDepth ==> StatusesAgree(web, cfg, f, level)
    requires multiset(a) == multiset(b) == multiset(level)
    ensures SameButForOrder(MergeInOrder(web, cfg, depth, f, a), MergeInOrder(web, cfg, depth, f, b))
  {
    hide MergeInOrder, FirstStatus, StatusInOrder, Image, KeysIn, MayFetch, StatusesAgree;
    var room := f.urls + Image(ToSet(level), web.Lists());
    var g, h := MergeInOrder(web, cfg, depth, f, a), MergeInOrder(web, cfg, depth, f, b);
    SameElements(a, level);
    SameElements(b, level);
    assert ToSet(a) == ToSet(level) == ToSet(b);
    LandingGrows(web, cfg, depth, f, a, room);
    LandingGrows(web, cfg, depth, f, b, room);
    forall k
      ensures k in g.visited <==> k in h.visited
      ensures k in g.next <==> k in h.next
    {
      SameFate(web, cfg, depth, f, level, a, b, k);
    }
    assert g.visited == h.visited && ToSet(g.next) == ToSet(h.next);
    NoDuplicatesSameMultiset(g.next, h.next);
  }

  lemma SameFate(web: Web, cfg: Settings, depth: nat, f: Found, level: seq<string>, a: seq<string>, b: seq<string>,
                 k: string)
    requires f.next == [] && |f.urls + Image(ToSet(level), web.Lists())| < cfg.maxUrls
    requires depth < cfg.maxDepth ==> StatusesAgree(web, cfg, f, level)
    requires multiset(a) == multiset(b) == multiset(level)
    ensures k in MergeInOrder(web, cfg, depth, f, a).visited <==> k in MergeInOrder(web, cfg, depth, f, b).visited
    ensures k in MergeInOrder(web, cfg, depth, f, a).next <==> k in MergeInOrder(web, cfg, depth, f, b).next
  {
    hide MergeInOrder, FirstStatus, StatusInOrder, Image, KeysIn, MayFetch, StatusesAgree;
    var room := f.urls + Image(ToSet(level), web.Lists());
    SameElements(a, level);
    SameElements(b, level);
    assert ToSet(a) == ToSet(level) == ToSet(b);
    LandingQueues(web, cfg, depth, f, a, room, k);
    LandingQueues(web, cfg, depth, f, b, room, k);
    StatusComesFromPage(web, a, k);
    StatusComesFromPage(web, b, k);
    if depth < cfg.maxDepth {
      AgreedStatus(web, cfg, depth, f, level, a, k);
      AgreedStatus(web, cfg, depth, f, level, b, k);
    }
  }

  /** Where the pages agree throughout, all uncut runs report the same. */
  lemma {:induction false} AgreementDecidesResult(web: Web, cfg: Settings, depth: nat, f: Found,
                                                  result: set<string>, other: set<string>)
    requires AgreesThroughout(web, cfg, depth, f)
    requires CanReport(web, cfg, depth, f, result) && CanReport(web, cfg, depth, f, other)
    ensures result == other
    decreases cfg.maxDepth + 1 - depth
  {
    hide MergeInOrder, StatusesAgree, Image;
    if depth <= cfg.maxDepth && f.next != [] {
      var a :| LandsAs(web, cfg, depth, f, a, result);
      var b :| LandsAs(web, cfg, depth, f, b, other);
      var start := f.(next := []);
      OrdersLeadToSameState(web, cfg, depth, start, f.next, a, b);
      var g, h := MergeInOrder(web, cfg, depth, start, a), MergeInOrder(web, cfg, depth, start, b);
      assert LevelAgrees(web, cfg, depth, f);
      ReportsIgnoreOrder(web, cfg, depth + 1, h, g, other);
      AgreementDecidesResult(web, cfg, depth + 1, g, result, other);
    }
  }

  /** And there is always something to report. */
  lemma {:induction false} SomethingIsReported(web: Web, cfg: Settings, depth: nat, f: Found)
      returns (result: set<string>)
    ensures CanReport(web, cfg, depth, f, result)
    decreases cfg.maxDepth + 1 - depth
  {
    hide MergeInOrder;
    result := f.urls;
    if depth <= cfg.maxDepth && f.next != [] {
      result := SomethingIsReported(web, cfg, depth + 1, MergeInOrder(web, cfg, depth, f.(next := []), f.next));
      assert LandsAs(web, cfg, depth, f, f.next, result);
    }
  }

  /** So where the pages agree throughout, there is exactly one set that uncut runs report. */
  lemma OneResult(web: Web, cfg: Settings, depth: nat, f: Found) returns (result: set<string>)
    requires AgreesThroughout(web, cfg, depth, f)
    ensures forall other :: CanReport(web, cfg, depth, f, other) <==> other == result
  {
    hide AgreesThroughout, CanReport;
    result := SomethingIsReported(web, cfg, depth, f);
    forall other | CanReport(web, cfg, depth, f, other)
      ensures other == result
    {
      AgreementDecidesResult(web, cfg, depth, f, other, result);
    }
  }

  /** `base` links to `p` and `q`, these link to `k`, one as an asset and one as a page, and `k` to `z`. */
  function MixedWeb(base: string, p: string, q: string, k: string, z: string): Web
  {
    Web(u =>
          if u == base then Some([PageLink(p), PageLink(q)])
          else if u == p then Some([Link(true, true, Some(k), true)])
          else if u == q then Some([PageLink(k)])
          else if u == k then Some([PageLink(z)])
          else None,
        u => u, _ => true)
  }

  function PageLink(key: string): Link
  {
    Link(true, true, Some(key), false)
  }

  lemma OneLink(web: Web, cfg: Settings, depth: nat, f: Found, l: Link)
    ensures AddLinks(web, cfg, depth, f, [l]) == if New(f, l) then AddLink(web, cfg, depth, f, l).0 else f
  {
    assert [l][1..] == [];
  }

  lemma OneLands(web: Web, cfg: Settings, depth: nat, f: Found, u: string)
    ensures MergeInOrder(web, cfg, depth, f, [u]) == AddLinks(web, cfg, depth, f, web.LinksOf(u))
  {
    assert [u][..0] == [];
  }

  lemma TwoLand(web: Web, cfg: Settings, depth: nat, f: Found, u: string, v: string)
    ensures MergeInOrder(web, cfg, depth, f, [u, v])
         == AddLinks(web, cfg, depth, AddLinks(web, cfg, depth, f, web.LinksOf(u)), web.LinksOf(v))
  {
    assert [u, v][..1] == [u];
    OneLands(web, cfg, depth, f, u);
  }

  /** Two runs over one site that differ in which of two pages lands first, neither cut by cap or clock: one
      reports `z`, the other never fetches the page that links to it. */
  lemma OrderDecidesResult(base: string, p: string, q: string, k: string, z: string)
    requires NoDuplicates([base, p, q, k, z])
    ensures var web, cfg, f := MixedWeb(base, p, q, k, z), Settings(10, 2, true), Found({base}, {base}, [base]);
      && CanReport(web, cfg, 0, f, {base, p, q, k})
      && CanReport(web, cfg, 0, f, {base, p, q, k, z})
      && {base, p, q, k} != {base, p, q, k, z}
  {
    hide CanReport;
    AllDiffer(base, p, q, k, z);
    AssetFirst(base, p, q, k, z);
    PageFirst(base, p, q, k, z);
    BehindBase(base, p, q, k, z, {base, p, q, k});
    BehindBase(base, p, q, k, z, {base, p, q, k, z});
    assert z !in {base, p, q, k};
  }

  lemma BehindBase(base: string, p: string, q: string, k: string, z: string, result: set<string>)
    requires NoDuplicates([base, p, q, k, z])
    requires CanReport(MixedWeb(base, p, q, k, z), Settings(10, 2, true), 1,
                       Found({base, p, q}, {base, p, q}, [p, q]), result)
    ensures CanReport(MixedWeb(base, p, q, k, z), Settings(10, 2, true), 0, Found({base}, {base}, [base]), result)
  {
    hide MergeInOrder, MixedWeb;
    BaseLands(base, p, q, k, z);
    assert LandsAs(MixedWeb(base, p, q, k, z), Settings(10, 2, true), 0, Found({base}, {base}, [base]), [base], result);
  }

  lemma AllDiffer(base: string, p: string, q: string, k: string, z: string)
    requires NoDuplicates([base, p, q, k, z])
    ensures base != p && base != q && base != k && base != z && p != q && p != k && p != z && q != k && q != z && k != z
  {
    var all := [base, p, q, k, z];
    assert all[0] == base && all[1] == p && all[2] == q && all[3] == k && all[4] == z;
  }

  lemma ThreeAndOne(a: string, b: string, c: string, d: string)
    ensures |{a, b, c, d}| <= 4
  {
    var three := {a, b, c};
    assert {a, b, c, d} == three + {d};
    assert three == {a, b} + {c} && {a, b} == {a} + {b};
  }

  lemma BaseLands(base: string, p: string, q: string, k: string, z: string)
    requires NoDuplicates([base, p, q, k, z])
    ensures MergeInOrder(MixedWeb(base, p, q, k, z), Settings(10, 2, true), 0, Found({base}, {base}, []), [base])
         == Found({base, p, q}, {base, p, q}, [p, q])
  {
    var web, cfg, f := MixedWeb(base, p, q, k, z), Settings(10, 2, true), Found({base}, {base}, []);
    AllDiffer(base, p, q, k, z);
    OneLands(web, cfg, 0, f, base);
    assert [PageLink(p), PageLink(q)][1..] == [PageLink(q)];
    var g := AddLink(web, cfg, 0, f, PageLink(p)).0;
    assert g == Found({base, p}, {base, p}, [p]);
    OneLink(web, cfg, 0, g, PageLink(q));
  }

  lemma AssetFirst(base: string, p: string, q: string, k: string, z: string)
    requires NoDuplicates([base, p, q, k, z])
    ensures CanReport(MixedWeb(base, p, q, k, z), Settings(10, 2, true), 1, Found({base, p, q}, {base, p, q}, [p, q]),
                      {base, p, q, k})
  {
    hide MergeInOrder, AddLinks;
    var web, cfg, f := MixedWeb(base, p, q, k, z), Settings(10, 2, true), Found({base, p, q}, {base, p, q}, []);
    assert f.urls + {k} == {base, p, q, k};
    ThreeAndOne(base, p, q, k);
    AllDiffer(base, p, q, k, z);
    TwoLand(web, cfg, 1, f, p, q);
    OneLink(web, cfg, 1, f, Link(true, true, Some(k), true));
    var g := Found({base, p, q, k}, {base, p, q, k}, []);
    OneLink(web, cfg, 1, g, PageLink(k));
    assert MergeInOrder(web, cfg, 1, f, [p, q]) == g;
    assert LandsAs(web, cfg, 1, f.(next := [p, q]), [p, q], {base, p, q, k});
  }

  lemma PageFirst(base: string, p: string, q: string, k: string, z: string)
    requires NoDuplicates([base, p, q, k, z])
    ensures CanReport(MixedWeb(base, p, q, k, z), Settings(10, 2, true), 1, Found({base, p, q}, {base, p, q}, [p, q]),
                      {base, p, q, k, z})
  {
    hide MergeInOrder, AddLinks, CanReport;
    var web, cfg, f := MixedWeb(base, p, q, k, z), Settings(10, 2, true), Found({base, p, q}, {base, p, q}, []);
    assert f.urls + {k} == {base, p, q, k};
    ThreeAndOne(base, p, q, k);
    AllDiffer(base, p, q, k, z);
    TwoLand(web, cfg, 1, f, q, p);
    OneLink(web, cfg, 1, f, PageLink(k));
    var g := Found({base, p, q, k}, {base, p, q, k}, [k]);
    assert [] + [k] == [k];
    OneLink(web, cfg, 1, g, Link(true, true, Some(k), true));
    assert MergeInOrder(web, cfg, 1, f, [q, p]) == g;
    LastPageLands(base, p, q, k, z);
    LandsSwapped(web, cfg, 1, f, p, q, {base, p, q, k, z});
  }

  lemma LandsSwapped(web: Web, cfg: Settings, depth: nat, f: Found, p: string, q: string, result: set<string>)
    requires depth <= cfg.maxDepth
    requires CanReport(web, cfg, depth + 1, MergeInOrder(web, cfg, depth, f.(next := []), [q, p]), result)
    ensures CanReport(web, cfg, depth, f.(next := [p, q]), result)
  {
    hide MergeInOrder;
    assert multiset([q, p]) == multiset([p, q]);
    assert f.(next := [p, q]).(next := []) == f.(next := []);
    assert LandsAs(web, cfg, depth, f.(next := [p, q]), [q, p], result);
  }

  lemma LastPageLands(base: string, p: string, q: string, k: string, z: string)
    requires NoDuplicates([base, p, q, k, z])
    ensures CanReport(MixedWeb(base, p, q, k, z), Settings(10, 2, true), 2,
                      Found({base, p, q, k}, {base, p, q, k}, [k]),
                      {base, p, q, k, z})
  {
    var web, cfg, f := MixedWeb(base, p, q, k, z), Settings(10, 2, true), Found({base, p, q, k}, {base, p, q, k}, []);
    AllDiffer(base, p, q, k, z);
    OneLands(web, cfg, 2, f, k);
    OneLink(web, cfg, 2, f, PageLink(z));
    assert LandsAs(web, cfg, 2, f.(next := [k]), [k], {base, p, q, k, z});
  }
}
