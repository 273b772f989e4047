/** The bounded breadth-first walk over a site's sitemap documents, for every graph of documents,
    cycles included, and every order in which the fetches of a level complete. */
module SitemapWalk {
  import opened Numbers
  import opened Reach
  import opened Sequences
  import opened Text

  /** The entries of one sitemap document. */
  datatype Doc = Doc(pages: seq<string>, children: seq<string>)

  const NO_ENTRIES := Doc([], [])

  /** What fetching a document yields. A challenged fetch carries what the renderer got out of it,
      `NO_ENTRIES` when there was no renderer, no budget or no time left. */
  datatype Outcome = Parsed(doc: Doc) | Challenged(rendered: Doc) | Empty

  function Entries(o: Outcome): Doc
  {
    match o
    case Parsed(doc) => doc
    case Challenged(rendered) => rendered
    case Empty => NO_ENTRIES
  }

  /** The document was retrieved and is a sitemap. Of a rendered one, content is the only sign. */
  predicate IsSitemap(o: Outcome)
  {
    match o
    case Parsed(_) => true
    case Challenged(rendered) => rendered != NO_ENTRIES
    case Empty => false
  }

  // What a document says, whichever way it was got. A walled one says what the renderer got out of it.

  function PagesIn(o: Outcome): seq<string>
  {
    if o.Parsed? then o.doc.pages else if o.Challenged? then o.rendered.pages else []
  }

  function ChildrenIn(o: Outcome): seq<string>
  {
    if o.Parsed? then o.doc.children else if o.Challenged? then o.rendered.children else []
  }

  predicate IsRecognised(o: Outcome)
  {
    o.Parsed? || (o.Challenged? && (o.rendered.pages != [] || o.rendered.children != []))
  }

  /** A site and its documents: `siteKey` identifies the site of a URL, if it has one. */
  datatype Web = Web(siteKey: string -> Option<string>, fetch: string -> Outcome)
  {
    predicate SameSite(u: string, target: string)
    {
      siteKey(u) == Some(target)
    }

    /** The same-site documents that `u` links to. */
    ghost function Links(target: string): string -> set<string>
    {
      u => set c | c in ChildrenIn(fetch(u)) && siteKey(c) == Some(target)
    }

    ghost function PagesOf(docs: set<string>, target: string): set<string>
    {
      set u, p | u in docs && p in PagesIn(fetch(u)) && siteKey(p) == Some(target) :: p
    }

    ghost function Seeds(seeds: seq<string>, target: string): set<string>
    {
      set u | u in seeds && siteKey(u) == Some(target)
    }
  }

  // ----- round-robin filling -----

  /** The same-site entries before the cursors. */
  ghost function ReadSoFar(web: Web, target: string, lists: seq<seq<string>>, pos: seq<nat>): set<string>
  {
    set i, k |
      0 <= i < |lists| && i < |pos| && 0 <= k < pos[i] && k < |lists[i]| && web.siteKey(lists[i][k]) == Some(target)
      :: lists[i][k]
  }

  ghost predicate Cursors(lists: seq<seq<string>>, pos: seq<nat>)
  {
    |pos| == |lists| && forall i :: 0 <= i < |lists| ==> pos[i] <= |lists[i]|
  }

  /** In the middle of round `round`: the first `i` lists have been asked once more than the others. */
  ghost predicate InRound(lists: seq<seq<string>>, pos: seq<nat>, round: nat, i: nat)
  {
    && |pos| == |lists|
    && forall j :: 0 <= j < |lists| ==> pos[j] == Min(if j < i then round + 1 else round, |lists[j]|)
  }

  lemma InRoundStep(lists: seq<seq<string>>, pos: seq<nat>, round: nat, i: nat)
    requires InRound(lists, pos, round, i) && i < |lists|
    ensures Cursors(lists, pos)
    ensures pos[i] < |lists[i]| <==> round < |lists[i]|
    ensures InRound(lists, if pos[i] < |lists[i]| then pos[i := pos[i] + 1] else pos, round, i + 1)
  {
  }

  ghost predicate Exhausted(lists: seq<seq<string>>, pos: seq<nat>)
    requires Cursors(lists, pos)
  {
    forall i :: 0 <= i < |lists| ==> pos[i] == |lists[i]|
  }

  ghost predicate Fair(lists: seq<seq<string>>, pos: seq<nat>)
    requires Cursors(lists, pos)
  {
    // While a list has entries left, nobody is more than one entry ahead of it, and nobody behind it
    // in the order is ahead at all.
    && (forall i, j :: 0 <= i < |lists| && 0 <= j < |lists| && pos[i] < |lists[i]| ==> pos[j] <= pos[i] + 1)
    && (forall i, j :: 0 <= i < j < |lists| && pos[i] < |lists[i]| ==> pos[j] <= pos[i])
  }

  lemma InRoundIsFair(lists: seq<seq<string>>, pos: seq<nat>, round: nat, i: nat)
    requires InRound(lists, pos, round, i)
    ensures Cursors(lists, pos) && Fair(lists, pos)
  {
  }

  lemma ReadOneMore(web: Web, target: string, lists: seq<seq<string>>, pos: seq<nat>, i: nat)
    requires Cursors(lists, pos)
    requires i < |lists| && pos[i] < |lists[i]|
    ensures ReadSoFar(web, target, lists, pos[i := pos[i] + 1])
         == ReadSoFar(web, target, lists, pos)
            + if web.SameSite(lists[i][pos[i]], target) then {lists[i][pos[i]]} else {}
  {
    var page, more := lists[i][pos[i]], pos[i := pos[i] + 1];
    forall x | x in ReadSoFar(web, target, lists, more)
      ensures x in ReadSoFar(web, target, lists, pos) || (x == page && web.SameSite(page, target))
    {
      var j, k :| 0 <= j < |lists| && 0 <= k < more[j] && web.SameSite(lists[j][k], target) && x == lists[j][k];
      assert k < pos[j] || (j == i && k == pos[i]);
    }
    forall x | x in ReadSoFar(web, target, lists, pos)
      ensures x in ReadSoFar(web, target, lists, more)
    {
      var j, k :| 0 <= j < |lists| && 0 <= k < pos[j] && web.SameSite(lists[j][k], target) && x == lists[j][k];
      assert k < more[j];
    }
    if web.SameSite(page, target) {
      assert pos[i] < more[i] && page == lists[i][pos[i]];
    }
  }

  lemma AddToUnion<T>(a: set<T>, b: set<T>, x: T)
    ensures a + b + {x} == a + (b + {x}) && a + (b + {}) == a + b
    ensures |a + b + {x}| <= |a + b| + 1
  {
  }

  /** The loop state after `i` lists have been asked in round `round`, the cap not yet hit. */
  ghost predicate Filling(web: Web, target: string, lists: seq<seq<string>>, start: set<string>, maxUrls: nat,
                          pages: set<string>, pos: seq<nat>, round: nat, i: nat)
  {
    && InRound(lists, pos, round, i)
    && pages == start + ReadSoFar(web, target, lists, pos)
    && (pages == start || |pages| < maxUrls)
  }

  lemma NothingToRead(web: Web, target: string, lists: seq<seq<string>>, start: set<string>, maxUrls: nat,
                      pages: set<string>, pos: seq<nat>, round: nat, i: nat)
    requires Filling(web, target, lists, start, maxUrls, pages, pos, round, i) && i < |lists|
    requires pos[i] >= |lists[i]|
    ensures Filling(web, target, lists, start, maxUrls, pages, pos, round, i + 1)
    ensures |lists[i]| <= round
  {
    InRoundStep(lists, pos, round, i);
  }

  /** Reads the next entry of list `i`, which has one. */
  method ReadNext(web: Web, target: string, lists: seq<seq<string>>, ghost start: set<string>, maxUrls: nat,
                  pages0: set<string>, pos0: seq<nat>, ghost round: nat, i: nat)
    returns (pages: set<string>, pos: seq<nat>, full: bool)
    requires Filling(web, target, lists, start, maxUrls, pages0, pos0, round, i) && i < |lists|
    requires pos0[i] < |lists[i]|
    ensures round < |lists[i]|
    ensures !full ==> Filling(web, target, lists, start, maxUrls, pages, pos, round, i + 1)
    ensures full ==> Stopped(web, target, lists, start, maxUrls, pages, pos)
  {
    hide ReadSoFar, Fair, InRound;
    InRoundStep(lists, pos0, round, i);
    ReadOneMore(web, target, lists, pos0, i);
    var page := lists[i][pos0[i]];
    AddToUnion(start, ReadSoFar(web, target, lists, pos0), page);
    pos := pos0[i := pos0[i] + 1];
    InRoundIsFair(lists, pos, round, i + 1);
    if web.SameSite(page, target) {
      pages := pages0 + {page};
      full := |pages| >= maxUrls;
    } else {
      pages, full := pages0, false;
    }
  }

  /** The filling may stop here: fairly served, and nothing left over unless the cap was hit. */
  ghost predicate Stopped(web: Web, target: string, lists: seq<seq<string>>, start: set<string>, maxUrls: nat,
                          pages: set<string>, pos: seq<nat>)
  {
    && Cursors(lists, pos)
    && pages == start + ReadSoFar(web, target, lists, pos)
    && |pages| <= Max(maxUrls, |start| + 1)
    && Fair(lists, pos)
    && (|pages| < maxUrls ==> Exhausted(lists, pos))
  }

  lemma FillingStarts(web: Web, target: string, lists: seq<seq<string>>, start: set<string>, maxUrls: nat,
                      pos: seq<nat>)
    requires |pos| == |lists| && forall i :: 0 <= i < |lists| ==> pos[i] == 0
    ensures Filling(web, target, lists, start, maxUrls, start, pos, 0, 0)
  {
    assert ReadSoFar(web, target, lists, pos) == {};
  }

  lemma CursorsInRound(web: Web, target: string, lists: seq<seq<string>>, start: set<string>, maxUrls: nat,
                       pages: set<string>, pos: seq<nat>, round: nat, i: nat)
    requires Filling(web, target, lists, start, maxUrls, pages, pos, round, i)
    ensures |pos| == |lists|
  {
  }

  lemma AllAsked(web: Web, target: string, lists: seq<seq<string>>, start: set<string>, maxUrls: nat,
                 pages: set<string>, pos: seq<nat>, round: nat)
    requires Filling(web, target, lists, start, maxUrls, pages, pos, round, |lists|)
    ensures Filling(web, target, lists, start, maxUrls, pages, pos, round + 1, 0)
    ensures (forall j :: 0 <= j < |lists| ==> |lists[j]| <= round) ==>
              Stopped(web, target, lists, start, maxUrls, pages, pos)
  {
    InRoundIsFair(lists, pos, round, |lists|);
  }

  /** One entry of every list in turn, round after round, until the cap is hit or the lists are empty.
      `pos` is where each list's iterator stands at the end. */
  method FillRoundRobin(web: Web, target: string, lists: seq<seq<string>>, start: set<string>, maxUrls: nat)
    returns (pages: set<string>, pos: seq<nat>)
    ensures Stopped(web, target, lists, start, maxUrls, pages, pos)
  {
    hide Filling, Stopped;
    pages := start;
    pos := seq(|lists|, _ => 0);
    ghost var round: nat := 0;
    ghost var longest := LongestList(lists);
    FillingStarts(web, target, lists, start, maxUrls, pos);
    while true
      invariant Filling(web, target, lists, start, maxUrls, pages, pos, round, 0) && round <= longest
      decreases longest - round
    {
      var progressed := false;
      for i := 0 to |lists|
        invariant Filling(web, target, lists, start, maxUrls, pages, pos, round, i)
        invariant !progressed ==> forall j :: 0 <= j < i ==> |lists[j]| <= round
        invariant progressed ==> round < longest
      {
        CursorsInRound(web, target, lists, start, maxUrls, pages, pos, round, i);
        if pos[i] < |lists[i]| {
          progressed := true;
          var full;
          pages, pos, full := ReadNext(web, target, lists, start, maxUrls, pages, pos, round, i);
          if full {
            return;
          }
        } else {
          NothingToRead(web, target, lists, start, maxUrls, pages, pos, round, i);
        }
      }
      AllAsked(web, target, lists, start, maxUrls, pages, pos, round);
      if !progressed {
        return;
      }
      round := round + 1;
    }
  }

  ghost function LongestList(lists: seq<seq<string>>): (n: nat)
    ensures forall i :: 0 <= i < |lists| ==> |lists[i]| <= n
  {
    if lists == [] then 0 else Max(|lists[|lists| - 1]|, LongestList(lists[..|lists| - 1]))
  }

  lemma FullReadIsPages(web: Web, target: string, docs: seq<string>, lists: seq<seq<string>>, pos: seq<nat>)
    requires |lists| == |docs| == |pos|
    requires forall i :: 0 <= i < |docs| ==> lists[i] == PagesIn(web.fetch(docs[i])) && pos[i] <= |lists[i]|
    ensures ReadSoFar(web, target, lists, pos) <= web.PagesOf(ToSet(docs), target)
    ensures (forall i :: 0 <= i < |docs| ==> pos[i] == |lists[i]|) ==>
              ReadSoFar(web, target, lists, pos) == web.PagesOf(ToSet(docs), target)
  {
    forall p | p in web.PagesOf(ToSet(docs), target) && forall i :: 0 <= i < |docs| ==> pos[i] == |lists[i]|
      ensures p in ReadSoFar(web, target, lists, pos)
    {
      var u :| u in ToSet(docs) && p in PagesIn(web.fetch(u)) && web.SameSite(p, target);
      var i :| 0 <= i < |docs| && docs[i] == u;
      var k :| 0 <= k < |lists[i]| && lists[i][k] == p;
      assert k < pos[i];
    }
  }

  lemma StoppedReadsPages(web: Web, target: string, docs: seq<string>, lists: seq<seq<string>>,
                          start: set<string>, maxUrls: nat, pages: set<string>, pos: seq<nat>)
    requires |lists| == |docs| && forall i :: 0 <= i < |docs| ==> lists[i] == PagesIn(web.fetch(docs[i]))
    requires Stopped(web, target, lists, start, maxUrls, pages, pos)
    ensures start <= pages <= start + web.PagesOf(ToSet(docs), target) && |pages| <= Max(maxUrls, |start| + 1)
    ensures |pages| < maxUrls ==> pages == start + web.PagesOf(ToSet(docs), target)
  {
    FullReadIsPages(web, target, docs, lists, pos);
  }

  // ----- one level -----

  /** Takes documents not visited before off `current`, up to the remaining fetch budget. */
  method TakeUnvisited(current: seq<string>, visited: set<string>, budget: nat)
    returns (batch: seq<string>, seen: set<string>)
    ensures seen == visited + ToSet(batch)
    ensures NoDuplicates(batch) && ToSet(batch) !! visited
    ensures ToSet(batch) <= ToSet(current) && |batch| <= budget
    ensures |batch| < budget ==> ToSet(current) <= seen
  {
    batch, seen := [], visited;
    for i := 0 to |current|
      invariant seen == visited + ToSet(batch)
      invariant NoDuplicates(batch) && ToSet(batch) !! visited
      invariant ToSet(batch) <= ToSet(current) && |batch| <= budget
      invariant ToSet(current[..i]) <= seen
    {
      if |batch| == budget {
        return;
      }
      if current[i] !in seen {
        seen := seen + {current[i]};
        batch := batch + [current[i]];
      }
    }
  }

  /** The sitemaps among `docs`, in order. */
  function SitemapsAmong(web: Web, docs: seq<string>): seq<string>
  {
    if docs == [] then []
    else
      var last := docs[|docs| - 1];
      SitemapsAmong(web, docs[..|docs| - 1]) + if IsRecognised(web.fetch(last)) then [last] else []
  }

  lemma OutcomeReads(o: Outcome)
    ensures Entries(o).pages == PagesIn(o) && Entries(o).children == ChildrenIn(o) && IsSitemap(o) == IsRecognised(o)
  {
  }

  method AddChildren(web: Web, target: string, children: seq<string>, visited: set<string>, next: seq<string>)
    returns (next': seq<string>)
    ensures ToSet(next') == ToSet(next) + ((set c | c in children && web.siteKey(c) == Some(target)) - visited)
  {
    next' := next;
    for m := 0 to |children|
      invariant ToSet(next')
        == ToSet(next) + ((set c | c in children[..m] && web.siteKey(c) == Some(target)) - visited)
    {
      var child := children[m];
      assert forall c :: c in children[..m + 1] <==> c in children[..m] || c == child;
      if web.SameSite(child, target) && child !in visited {
        ToSetSnoc(next', child);
        next' := next' + [child];
      }
    }
    assert children[..|children|] == children;
  }

  method MergeLevel(web: Web, target: string, results: seq<string>, visited: set<string>)
    returns (found: seq<string>, lists: seq<seq<string>>, next: seq<string>)
    ensures found == SitemapsAmong(web, results)
    ensures |lists| == |results| && forall i :: 0 <= i < |lists| ==> lists[i] == PagesIn(web.fetch(results[i]))
    ensures ToSet(next) == Image(ToSet(results), web.Links(target)) - visited
  {
    hide Entries, IsSitemap, PagesIn, ChildrenIn, IsRecognised, Image;
    found, lists, next := [], [], [];
    ImageOfNothing(web.Links(target));
    assert ToSet(results[..0]) == {} && ToSet(next) == {};
    for n := 0 to |results|
      invariant found == SitemapsAmong(web, results[..n])
      invariant |lists| == n && forall i :: 0 <= i < n ==> lists[i] == PagesIn(web.fetch(results[i]))
      invariant ToSet(next) == Image(ToSet(results[..n]), web.Links(target)) - visited
    {
      var parent := results[n];
      var outcome := web.fetch(parent);
      var doc := Entries(outcome);
      OutcomeReads(outcome);
      assert results[..n + 1][..n] == results[..n];
      if IsSitemap(outcome) {
        found := found + [parent];
      }
      lists := lists + [doc.pages];
      next := AddChildren(web, target, doc.children, visited, next);
      ImageOneMore(ToSet(results[..n]), parent, web.Links(target));
      assert ToSet(results[..n + 1]) == ToSet(results[..n]) + {parent};
    }
    assert results[..|results|] == results;
  }

  lemma ImageOfNothing<K>(next: K -> set<K>)
    ensures Image({}, next) == {}
  {
  }

  lemma ImageOneMore<K>(s: set<K>, x: K, next: K -> set<K>)
    ensures Image(s + {x}, next) == Image(s, next) + next(x)
  {
  }

  // ----- the walk -----

  lemma {:induction false} SitemapsAmongConcat(web: Web, a: seq<string>, b: seq<string>)
    ensures SitemapsAmong(web, a + b) == SitemapsAmong(web, a) + SitemapsAmong(web, b)
    decreases |b|
  {
    if b == [] {
      assert a + b == a;
    } else {
      assert (a + b)[..|a + b| - 1] == a + b[..|b| - 1];
      SitemapsAmongConcat(web, a, b[..|b| - 1]);
    }
  }

  lemma {:induction false} SitemapsAmongElements(web: Web, docs: seq<string>)
    ensures forall u :: u in SitemapsAmong(web, docs) <==> u in docs && IsRecognised(web.fetch(u))
    decreases |docs|
  {
    if docs != [] {
      var init, last := docs[..|docs| - 1], docs[|docs| - 1];
      assert forall u :: u in docs <==> u in init || u == last;
      SitemapsAmongElements(web, init);
    }
  }

  /** Every document in the list is a seed or linked from one before it. */
  ghost predicate ParentsFirst(list: seq<string>, seeds: set<string>, links: string -> set<string>)
  {
    forall i :: 0 <= i < |list| ==> HasParent(list[i], list[..i], seeds, links)
  }

  ghost predicate HasParent(u: string, list: seq<string>, seeds: set<string>, links: string -> set<string>)
  {
    u in seeds || exists p :: p in list && u in links(p)
  }

  lemma ParentsFirstExtended(found: seq<string>, more: seq<string>, seeds: set<string>, links: string -> set<string>)
    requires ParentsFirst(found, seeds, links)
    requires forall u :: u in more ==> HasParent(u, found, seeds, links)
    ensures ParentsFirst(found + more, seeds, links)
  {
    forall i | 0 <= i < |found + more|
      ensures HasParent((found + more)[i], (found + more)[..i], seeds, links)
    {
      if i < |found| {
        assert (found + more)[..i] == found[..i];
      } else {
        assert (found + more)[i] in more;
        assert (found + more)[..i] == found + more[..i - |found|];
      }
    }
  }

  /** Only a document that counts as a sitemap has links. */
  lemma LinksComeFromSitemaps(web: Web, target: string, p: string, c: string)
    requires c in web.Links(target)(p)
    ensures IsRecognised(web.fetch(p))
  {
  }

  /** What holds of the documents fetched so far, `depth` levels deep, whatever cut the walk short. */
  ghost predicate Safe(web: Web, target: string, seeds: set<string>, maxSitemaps: nat, depth: nat,
                       fetched: seq<string>, pages: set<string>, found: seq<string>)
  {
    && NoDuplicates(fetched)
    && |fetched| <= maxSitemaps
    && ToSet(fetched) <= Ball(seeds, web.Links(target), depth)
    && pages <= web.PagesOf(ToSet(fetched), target)
    && found == SitemapsAmong(web, fetched)
    && ParentsFirst(found, seeds, web.Links(target))
  }

  /** The frontier before level `depth`: linked from what was fetched, and complete if nothing was cut. */
  ghost predicate Frontier(web: Web, target: string, seeds: set<string>, maxSitemaps: nat, depth: nat,
                           fetched: seq<string>, pages: set<string>, found: seq<string>, current: seq<string>)
  {
    && ToSet(current) <= Ball(seeds, web.Links(target), depth)
    && (forall u :: u in current ==> HasParent(u, found, seeds, web.Links(target)))
    && (|fetched| < maxSitemaps ==>
          && ToSet(fetched) == (if depth == 0 then {} else Ball(seeds, web.Links(target), depth - 1))
          && ToSet(fetched) + ToSet(current) == Ball(seeds, web.Links(target), depth))
    && pages == web.PagesOf(ToSet(fetched), target)
  }

  lemma FrontierHasPages(web: Web, target: string, seeds: set<string>, maxSitemaps: nat, depth: nat,
                         fetched: seq<string>, pages: set<string>, found: seq<string>, current: seq<string>)
    requires Frontier(web, target, seeds, maxSitemaps, depth, fetched, pages, found, current)
    ensures pages == web.PagesOf(ToSet(fetched), target)
  {
  }

  /** The whole of what is within reach, and its pages. */
  ghost predicate Complete(web: Web, target: string, seeds: set<string>, maxDepth: nat,
                           fetched: seq<string>, pages: set<string>)
  {
    && ToSet(fetched) == Ball(seeds, web.Links(target), maxDepth)
    && pages == web.PagesOf(Ball(seeds, web.Links(target), maxDepth), target)
  }

  lemma BallOfNothing(seeds: set<string>, links: string -> set<string>, d: nat)
    requires Ball(seeds, links, 0) == {}
    ensures Ball(seeds, links, d) == {}
  {
    BallFixpoint(seeds, links, 0, d);
  }

  lemma WalkExhausted(web: Web, target: string, seeds: set<string>, maxSitemaps: nat, depth: nat, maxDepth: nat,
                      fetched: seq<string>, pages: set<string>, found: seq<string>, current: seq<string>)
    requires Frontier(web, target, seeds, maxSitemaps, depth, fetched, pages, found, current)
    requires |fetched| < maxSitemaps && depth <= maxDepth + 1
    requires ToSet(current) <= ToSet(fetched) || depth == maxDepth + 1
    ensures Complete(web, target, seeds, maxDepth, fetched, pages)
  {
    hide Ball, HasParent, Web.PagesOf, Web.Links;
    var links := web.Links(target);
    if depth <= maxDepth {
      if depth == 0 {
        BallOfNothing(seeds, links, maxDepth);
      } else {
        BallStops(seeds, links, depth - 1, maxDepth);
      }
    }
  }

  /** `more` holds the old pages and some, or all, of the pages of the documents just merged. */
  ghost predicate Merged(web: Web, target: string, depth: nat, fetched: seq<string>, current: seq<string>,
                         results: seq<string>, next: seq<string>)
  {
    && NoDuplicates(results) && ToSet(results) !! ToSet(fetched) && ToSet(results) <= ToSet(current)
    && ToSet(next) == Image(ToSet(results), web.Links(target)) - (ToSet(fetched) + ToSet(results))
  }

  ghost function Before(depth: nat): nat
  {
    if depth == 0 then 0 else depth - 1
  }

  lemma LevelKeepsSafe(web: Web, target: string, seeds: set<string>, maxSitemaps: nat, depth: nat,
                       fetched: seq<string>, pages: set<string>, found: seq<string>, current: seq<string>,
                       results: seq<string>, more: set<string>, next: seq<string>)
    requires Safe(web, target, seeds, maxSitemaps, Before(depth), fetched, pages, found)
    requires Frontier(web, target, seeds, maxSitemaps, depth, fetched, pages, found, current)
    requires Merged(web, target, depth, fetched, current, results, next)
    requires |fetched| + |results| <= maxSitemaps
    requires more <= pages + web.PagesOf(ToSet(results), target)
    ensures Safe(web, target, seeds, maxSitemaps, depth, fetched + results, more, found + SitemapsAmong(web, results))
  {
    NoDuplicatesConcat(fetched, results);
    SitemapsAmongConcat(web, fetched, results);
    SitemapsAmongElements(web, results);
    assert forall u :: u in SitemapsAmong(web, results) ==> u in ToSet(results);
    ParentsFirstExtended(found, SitemapsAmong(web, results), seeds, web.Links(target));
    BallMonotone(seeds, web.Links(target), Before(depth), depth);
    PagesOfUnion(web, target, ToSet(fetched), ToSet(results));
  }

  lemma PagesOfUnion(web: Web, target: string, a: set<string>, b: set<string>)
    ensures web.PagesOf(a + b, target) == web.PagesOf(a, target) + web.PagesOf(b, target)
  {
  }

  lemma NextHasParents(web: Web, target: string, seeds: set<string>, depth: nat,
                       found: seq<string>, results: seq<string>, next: seq<string>)
    requires ToSet(next) <= Image(ToSet(results), web.Links(target))
    ensures forall u :: u in next ==> HasParent(u, found + SitemapsAmong(web, results), seeds, web.Links(target))
  {
    SitemapsAmongElements(web, results);
    forall u | u in next
      ensures HasParent(u, found + SitemapsAmong(web, results), seeds, web.Links(target))
    {
      assert u in ToSet(next);
      var p :| p in ToSet(results) && u in web.Links(target)(p);
      LinksComeFromSitemaps(web, target, p, u);
      assert p in SitemapsAmong(web, results);
    }
  }

  lemma NextInBall(web: Web, target: string, seeds: set<string>, depth: nat,
                   fetched: set<string>, results: set<string>, next: set<string>)
    requires next == Image(results, web.Links(target)) - (fetched + results)
    requires results <= Ball(seeds, web.Links(target), depth)
    ensures next <= Ball(seeds, web.Links(target), depth + 1)
    ensures (fetched + results == Ball(seeds, web.Links(target), depth)
             && fetched == (if depth == 0 then {} else Ball(seeds, web.Links(target), depth - 1)))
            ==> fetched + results + next == Ball(seeds, web.Links(target), depth + 1)
  {
    var links := web.Links(target);
    assert Image(fetched + results, links) == Image(fetched, links) + Image(results, links);
  }

  lemma LevelKeepsFrontier(web: Web, target: string, seeds: set<string>, maxSitemaps: nat, depth: nat,
                           fetched: seq<string>, pages: set<string>, found: seq<string>, current: seq<string>,
                           results: seq<string>, more: set<string>, next: seq<string>)
    requires Frontier(web, target, seeds, maxSitemaps, depth, fetched, pages, found, current)
    requires Merged(web, target, depth, fetched, current, results, next)
    requires NoDuplicates(fetched)
    requires |fetched| + |results| < maxSitemaps ==> ToSet(current) <= ToSet(fetched) + ToSet(results)
    requires more == pages + web.PagesOf(ToSet(results), target)
    ensures Frontier(web, target, seeds, maxSitemaps, depth + 1, fetched + results, more,
                     found + SitemapsAmong(web, results), next)
  {
    NoDuplicatesConcat(fetched, results);
    NextHasParents(web, target, seeds, depth, found, results, next);
    NextInBall(web, target, seeds, depth, ToSet(fetched), ToSet(results), ToSet(next));
    PagesOfUnion(web, target, ToSet(fetched), ToSet(results));
  }

  lemma LevelDone(web: Web, target: string, seeds: set<string>, maxSitemaps: nat, maxUrls: nat,
                  depth: nat, fetched: seq<string>, pages: set<string>, found: seq<string>, current: seq<string>,
                  results: seq<string>, more: set<string>, next: seq<string>,
                  found': seq<string>, fetched': seq<string>)
    requires Safe(web, target, seeds, maxSitemaps, Before(depth), fetched, pages, found)
    requires Frontier(web, target, seeds, maxSitemaps, depth, fetched, pages, found, current)
    requires Merged(web, target, depth, fetched, current, results, next)
    requires |fetched| + |results| <= maxSitemaps
    requires |fetched| + |results| < maxSitemaps ==> ToSet(current) <= ToSet(fetched) + ToSet(results)
    requires more <= pages + web.PagesOf(ToSet(results), target)
    requires |more| < maxUrls ==> more == pages + web.PagesOf(ToSet(results), target)
    requires found' == found + SitemapsAmong(web, results) && fetched' == fetched + results
    ensures ToSet(fetched') == ToSet(fetched) + ToSet(results)
    ensures Safe(web, target, seeds, maxSitemaps, depth, fetched', more, found')
    ensures |more| < maxUrls ==> Frontier(web, target, seeds, maxSitemaps, depth + 1, fetched', more, found', next)
    ensures |more| < maxUrls ==> more == web.PagesOf(ToSet(fetched'), target)
  {
    NoDuplicatesConcat(fetched, results);
    LevelKeepsSafe(web, target, seeds, maxSitemaps, depth, fetched, pages, found, current, results, more, next);
    if |more| < maxUrls {
      LevelKeepsFrontier(web, target, seeds, maxSitemaps, depth, fetched, pages, found, current, results, more, next);
    }
  }

  // ----- how far a walk has come -----

  /** The documents of the first `n` levels. */
  ghost function Levels(web: Web, target: string, seeds: set<string>, n: nat): set<string>
  {
    if n == 0 then {} else Ball(seeds, web.Links(target), n - 1)
  }

  function PageLists(web: Web, docs: seq<string>): seq<seq<string>>
  {
    seq(|docs|, i requires 0 <= i < |docs| => PagesIn(web.fetch(docs[i])))
  }

  /** The pages of these documents were added in fair turns, until the cap or the end. */
  ghost predicate FilledFairly(web: Web, target: string, docs: seq<string>, before: set<string>, maxUrls: nat,
                               pages: set<string>)
  {
    exists pos :: Stopped(web, target, PageLists(web, docs), before, maxUrls, pages, pos)
  }

  /** One level was fetched on top of `before`: all of it, if the fetch cap was not hit. */
  ghost predicate OneLevel(web: Web, target: string, seeds: set<string>, maxSitemaps: nat, maxUrls: nat, depth: nat,
                           before: seq<string>, pagesBefore: set<string>, fetched: seq<string>, pages: set<string>)
  {
    && before < fetched
    && ToSet(fetched) <= Ball(seeds, web.Links(target), depth)
    && (|fetched| < maxSitemaps ==> ToSet(fetched) == Ball(seeds, web.Links(target), depth))
    && FilledFairly(web, target, fetched[|before|..], pagesBefore, maxUrls, pages)
  }

  /** `levels` levels were fetched: all but the last, `fetched[..n]`, completely and without filling the page cap. */
  ghost predicate Walked(web: Web, target: string, seeds: set<string>, maxSitemaps: nat, maxUrls: nat,
                         levels: nat, n: nat, fetched: seq<string>, pages: set<string>)
  {
    && n <= |fetched|
    && (levels == 0 ==> fetched == [] && pages == {})
    && (levels > 0 ==>
          && n < maxSitemaps && ToSet(fetched[..n]) == Levels(web, target, seeds, levels - 1)
          && (levels == 1 || |web.PagesOf(ToSet(fetched[..n]), target)| < maxUrls)
          && OneLevel(web, target, seeds, maxSitemaps, maxUrls, levels - 1, fetched[..n],
                      web.PagesOf(ToSet(fetched[..n]), target), fetched, pages))
  }

  /** The walk stopped behind these levels, in time for each, and only for want of time, of room under a cap, or
      of anything more to fetch. */
  ghost predicate StopsBehind(web: Web, target: string, seeds: set<string>, maxSitemaps: nat, maxDepth: nat,
                              maxUrls: nat, late: nat -> bool, levels: nat, n: nat, fetched: seq<string>,
                              pages: set<string>)
  {
    && Walked(web, target, seeds, maxSitemaps, maxUrls, levels, n, fetched, pages)
    && levels <= maxDepth + 1 && (forall d: nat :: d < levels ==> !late(d))
    && (|| (levels <= maxDepth && late(levels))
        || |fetched| >= maxSitemaps
        || (levels > 0 && |pages| >= maxUrls)
        || ToSet(fetched) == Ball(seeds, web.Links(target), maxDepth))
  }

  lemma LevelIsOne(web: Web, target: string, seeds: set<string>, maxSitemaps: nat, maxUrls: nat, depth: nat,
                   fetched: seq<string>, pages: set<string>, found: seq<string>, current: seq<string>,
                   results: seq<string>, lists: seq<seq<string>>, more: set<string>, pos: seq<nat>)
    requires Frontier(web, target, seeds, maxSitemaps, depth, fetched, pages, found, current)
    requires ToSet(fetched) <= Ball(seeds, web.Links(target), Before(depth)) && |fetched| < maxSitemaps
    requires results != [] && ToSet(results) <= ToSet(current)
    requires |fetched| + |results| < maxSitemaps ==> ToSet(current) <= ToSet(fetched) + ToSet(results)
    requires |lists| == |results| && forall i :: 0 <= i < |lists| ==> lists[i] == PagesIn(web.fetch(results[i]))
    requires Stopped(web, target, lists, pages, maxUrls, more, pos)
    ensures OneLevel(web, target, seeds, maxSitemaps, maxUrls, depth, fetched, pages, fetched + results, more)
  {
    hide Ball, Stopped, HasParent, PagesIn, Web.PagesOf, Web.Links;
    BallMonotone(seeds, web.Links(target), Before(depth), depth);
    assert (fetched + results)[|fetched|..] == results && fetched < fetched + results;
    assert ToSet(fetched + results) == ToSet(fetched) + ToSet(results);
    assert lists == PageLists(web, results);
  }

  lemma SafeIsInBall(web: Web, target: string, seeds: set<string>, maxSitemaps: nat, depth: nat,
                     fetched: seq<string>, pages: set<string>, found: seq<string>)
    requires Safe(web, target, seeds, maxSitemaps, depth, fetched, pages, found)
    ensures ToSet(fetched) <= Ball(seeds, web.Links(target), depth)
  {
  }

  /** One turn of the loop: fetch a batch off the frontier, merge what came back. It is the last turn
      if nothing new was on the frontier or a cap was hit. */
  method WalkLevel(web: Web, target: string, ghost seeds: set<string>, maxDepth: nat, maxSitemaps: nat, maxUrls: nat,
                   depth: nat, visited: set<string>, totalFetched: nat, current: seq<string>,
                   pages: set<string>, found: seq<string>, ghost fetched: seq<string>)
    returns (last: bool, visited': set<string>, totalFetched': nat, next: seq<string>,
             pages': set<string>, found': seq<string>, ghost fetched': seq<string>)
    requires depth <= maxDepth && totalFetched < maxSitemaps
    requires visited == ToSet(fetched) && totalFetched == |fetched|
    requires Safe(web, target, seeds, maxSitemaps, Before(depth), fetched, pages, found)
    requires Frontier(web, target, seeds, maxSitemaps, depth, fetched, pages, found, current)
    requires |pages| < maxUrls || pages == {}
    ensures Safe(web, target, seeds, maxSitemaps, depth, fetched', pages', found') && |pages'| <= Max(maxUrls, 1)
    ensures |pages'| < maxUrls ==> pages' == web.PagesOf(ToSet(fetched'), target)
    ensures fetched' == fetched ==>
      last && pages' == pages && found' == found && Complete(web, target, seeds, maxDepth, fetched, pages)
    ensures fetched' != fetched ==>
      && OneLevel(web, target, seeds, maxSitemaps, maxUrls, depth, fetched, pages, fetched', pages')
      && (last <==> |pages'| >= maxUrls)
    ensures last && |fetched'| < maxSitemaps && |pages'| < maxUrls ==>
              Complete(web, target, seeds, maxDepth, fetched', pages')
    ensures !last ==>
      && visited' == ToSet(fetched') && totalFetched' == |fetched'|
      && Frontier(web, target, seeds, maxSitemaps, depth + 1, fetched', pages', found', next)
      && |pages'| < maxUrls
  {
    hide Safe, Frontier, Complete, Stopped, Fair, Image, OneLevel, PagesIn;
    var batch;
    batch, visited' := TakeUnvisited(current, visited, maxSitemaps - totalFetched);
    if batch == [] {
      FrontierHasPages(web, target, seeds, maxSitemaps, depth, fetched, pages, found, current);
      WalkExhausted(web, target, seeds, maxSitemaps, depth, maxDepth, fetched, pages, found, current);
      SafeIsMonotone(web, target, seeds, maxSitemaps, Before(depth), depth, fetched, pages, found);
      return true, visited, totalFetched, current, pages, found, fetched;
    }
    totalFetched' := totalFetched + |batch|;
    // The fetches run concurrently and land in any order.
    var results :| multiset(results) == multiset(batch);
    SameElementsAfterShuffle(batch, results);

    var sitemaps, lists;
    sitemaps, lists, next := MergeLevel(web, target, results, visited');
    found' := found + sitemaps;
    fetched' := fetched + results;
    var pos;
    pages', pos := FillRoundRobin(web, target, lists, pages, maxUrls);
    StoppedReadsPages(web, target, results, lists, pages, maxUrls, pages', pos);
    LevelDone(web, target, seeds, maxSitemaps, maxUrls, depth, fetched, pages, found, current,
              results, pages', next, found', fetched');
    SafeIsInBall(web, target, seeds, maxSitemaps, Before(depth), fetched, pages, found);
    LevelIsOne(web, target, seeds, maxSitemaps, maxUrls, depth, fetched, pages, found, current,
               results, lists, pages', pos);
    assert results != [] && |fetched'| > |fetched|;
    last := |pages'| >= maxUrls;
  }

  /** Whatever cuts the walk short: at most the caps, pages and sitemaps of documents within reach only, no
      sitemap twice, each a seed or behind a parent. */
  ghost predicate WithinReach(web: Web, target: string, seeds: set<string>, maxSitemaps: nat, maxDepth: nat,
                              maxUrls: nat, pages: set<string>, sitemaps: seq<string>)
  {
    var reach := Ball(seeds, web.Links(target), maxDepth);
    && |pages| <= Max(maxUrls, 1) && pages <= web.PagesOf(reach, target)
    && |sitemaps| <= maxSitemaps && NoDuplicates(sitemaps)
    && (forall u :: u in sitemaps ==> u in reach && IsRecognised(web.fetch(u)))
    && ParentsFirst(sitemaps, seeds, web.Links(target))
  }

  /** The caps leave room for everything within reach. */
  ghost predicate Roomy(web: Web, target: string, seeds: set<string>, maxSitemaps: nat, maxDepth: nat, maxUrls: nat)
  {
    var reach := Ball(seeds, web.Links(target), maxDepth);
    |reach| <= maxSitemaps && |web.PagesOf(reach, target)| < maxUrls
  }

  ghost predicate AllWithinReach(web: Web, target: string, seeds: set<string>, maxDepth: nat,
                                 pages: set<string>, sitemaps: seq<string>)
  {
    var reach := Ball(seeds, web.Links(target), maxDepth);
    && pages == web.PagesOf(reach, target)
    && forall u :: u in sitemaps <==> u in reach && IsRecognised(web.fetch(u))
  }

  lemma {:induction false} SitemapsAmongDistinct(web: Web, docs: seq<string>)
    requires NoDuplicates(docs)
    ensures NoDuplicates(SitemapsAmong(web, docs)) && |SitemapsAmong(web, docs)| <= |docs|
    ensures forall u :: u in SitemapsAmong(web, docs) <==> u in docs && IsRecognised(web.fetch(u))
  {
    if docs != [] {
      var init, x := docs[..|docs| - 1], docs[|docs| - 1];
      assert docs == init + [x];
      SitemapsAmongDistinct(web, init);
    }
  }

  lemma PagesOfMonotone(web: Web, target: string, a: set<string>, b: set<string>)
    requires a <= b
    ensures web.PagesOf(a, target) <= web.PagesOf(b, target)
  {
  }

  lemma SafeIsWithinReach(web: Web, target: string, seeds: set<string>, maxSitemaps: nat, maxDepth: nat,
                          maxUrls: nat, fetched: seq<string>, pages: set<string>, found: seq<string>)
    requires Safe(web, target, seeds, maxSitemaps, maxDepth, fetched, pages, found) && |pages| <= Max(maxUrls, 1)
    requires |pages| < maxUrls ==> pages == web.PagesOf(ToSet(fetched), target)
    ensures WithinReach(web, target, seeds, maxSitemaps, maxDepth, maxUrls, pages, found)
    ensures Roomy(web, target, seeds, maxSitemaps, maxDepth, maxUrls) ==>
      |pages| < maxUrls && (|fetched| < maxSitemaps || Complete(web, target, seeds, maxDepth, fetched, pages))
    ensures Complete(web, target, seeds, maxDepth, fetched, pages) ==>
      AllWithinReach(web, target, seeds, maxDepth, pages, found)
  {
    hide Ball, ParentsFirst, IsRecognised;
    var reach := Ball(seeds, web.Links(target), maxDepth);
    assert forall u :: u in fetched <==> u in ToSet(fetched);
    SitemapsAmongDistinct(web, fetched);
    PagesOfMonotone(web, target, ToSet(fetched), reach);
    DistinctCount(fetched);
    SubsetCount(ToSet(fetched), reach);
    SubsetCount(pages, web.PagesOf(reach, target));
    if Roomy(web, target, seeds, maxSitemaps, maxDepth, maxUrls) && |fetched| >= maxSitemaps {
      SubsetOfSameCount(ToSet(fetched), reach);
    }
  }

  /** If the clock first says so before level `k`, and the caps have room for the levels before: exactly these. */
  ghost predicate CutByClock(web: Web, target: string, seeds: set<string>, maxSitemaps: nat, maxDepth: nat,
                             maxUrls: nat, late: nat -> bool, pages: set<string>, sitemaps: seq<string>)
  {
    && (late(0) ==> pages == {} && sitemaps == [])
    && (forall k: nat :: 0 < k <= maxDepth && FirstLate(late, k) ==>
          Roomy(web, target, seeds, maxSitemaps, k - 1, maxUrls) ==>
            AllWithinReach(web, target, seeds, k - 1, pages, sitemaps))
  }

  method FetchSitemapTree(seeds: seq<string>, web: Web, targetOrigin: string, maxDepth: nat, maxSitemaps: nat,
                          maxUrls: nat, late: nat -> bool)
    returns (pages: set<string>, sitemaps: seq<string>, ghost fetched: seq<string>, ghost levels: nat, ghost n: nat)
    ensures web.siteKey(targetOrigin) == None ==> fetched == []
    // How far it comes: level by level, until it must stop.
    ensures web.siteKey(targetOrigin).Some? ==>
      var target := web.siteKey(targetOrigin).value;
      && StopsBehind(web, target, web.Seeds(seeds, target), maxSitemaps, maxDepth, maxUrls, late, levels, n,
                     fetched, pages)
      && (|pages| < maxUrls ==> pages == web.PagesOf(ToSet(fetched), target))
    // Always: no document twice, no more than the cap, nothing off the site or out of range.
    ensures web.siteKey(targetOrigin).Some? ==>
      var target := web.siteKey(targetOrigin).value;
      && Safe(web, target, web.Seeds(seeds, target), maxSitemaps, maxDepth, fetched, pages, sitemaps)
      && |pages| <= Max(maxUrls, 1)
      // Nothing cut short: exactly the documents in range and exactly their pages.
      && (|fetched| < maxSitemaps && |pages| < maxUrls && (forall d: nat :: d <= maxDepth ==> !late(d)) ==>
            Complete(web, target, web.Seeds(seeds, target), maxDepth, fetched, pages))
    // What a caller sees of this.
    ensures web.siteKey(targetOrigin) == None ==> pages == {} && sitemaps == []
    ensures web.siteKey(targetOrigin).Some? ==>
      var target := web.siteKey(targetOrigin).value;
      WithinReach(web, target, web.Seeds(seeds, target), maxSitemaps, maxDepth, maxUrls, pages, sitemaps)
    ensures web.siteKey(targetOrigin).Some? && (forall d: nat :: d <= maxDepth ==> !late(d)) ==>
      var target := web.siteKey(targetOrigin).value;
      Roomy(web, target, web.Seeds(seeds, target), maxSitemaps, maxDepth, maxUrls) ==>
        AllWithinReach(web, target, web.Seeds(seeds, target), maxDepth, pages, sitemaps)
    // And of a walk that the clock cuts before level `k`: with room for the levels before, exactly these.
    ensures web.siteKey(targetOrigin).Some? ==>
      var target := web.siteKey(targetOrigin).value;
      CutByClock(web, target, web.Seeds(seeds, target), maxSitemaps, maxDepth, maxUrls, late, pages, sitemaps)
  {
    hide Safe, Complete, WithinReach, Roomy, AllWithinReach, StopsBehind, CutByClock;
    pages, sitemaps, fetched, levels, n := {}, [], [], 0, 0;
    var targetKey := web.siteKey(targetOrigin);
    if targetKey == None {
      return;
    }
    var target := targetKey.value;
    var current := FilterSameSite(web, target, seeds);
    pages, sitemaps, fetched, levels, n :=
      Walk(web, target, web.Seeds(seeds, target), current, maxDepth, maxSitemaps, maxUrls, late);
    UncutIsComplete(web, target, web.Seeds(seeds, target), maxSitemaps, maxDepth, maxUrls, late, levels, n,
                    fetched, pages);
    SafeIsWithinReach(web, target, web.Seeds(seeds, target), maxSitemaps, maxDepth, maxUrls, fetched, pages, sitemaps);
    LateWalkIsWhole(web, target, web.Seeds(seeds, target), maxSitemaps, maxDepth, maxUrls, late, levels, n, fetched,
                    pages, sitemaps);
  }

  lemma UncutIsComplete(web: Web, target: string, seeds: set<string>, maxSitemaps: nat, maxDepth: nat, maxUrls: nat,
                        late: nat -> bool, levels: nat, n: nat, fetched: seq<string>, pages: set<string>)
    requires StopsBehind(web, target, seeds, maxSitemaps, maxDepth, maxUrls, late, levels, n, fetched, pages)
    requires |pages| < maxUrls ==> pages == web.PagesOf(ToSet(fetched), target)
    ensures |fetched| < maxSitemaps && |pages| < maxUrls && (forall d: nat :: d <= maxDepth ==> !late(d)) ==>
      Complete(web, target, seeds, maxDepth, fetched, pages)
  {
    hide Walked, Ball;
  }

  /** The loop over the levels. */
  method Walk(web: Web, target: string, ghost start: set<string>, current0: seq<string>, maxDepth: nat,
              maxSitemaps: nat, maxUrls: nat, late: nat -> bool)
    returns (pages: set<string>, sitemaps: seq<string>, ghost fetched: seq<string>, ghost levels: nat, ghost n: nat)
    requires ToSet(current0) == start
    ensures Safe(web, target, start, maxSitemaps, maxDepth, fetched, pages, sitemaps) && |pages| <= Max(maxUrls, 1)
    ensures |pages| < maxUrls ==> pages == web.PagesOf(ToSet(fetched), target)
    ensures StopsBehind(web, target, start, maxSitemaps, maxDepth, maxUrls, late, levels, n, fetched, pages)
  {
    hide Safe, Frontier, Complete, Walked, StopsBehind, OneLevel, Levels, Web.PagesOf, Ball;
    pages, sitemaps, fetched, levels, n := {}, [], [], 0, 0;
    var visited: set<string> := {};
    var totalFetched := 0;
    var depth := 0;
    var current := current0;
    var last := false;
    WalkStarts(web, target, start, current, maxSitemaps);
    FrontierHasPages(web, target, start, maxSitemaps, 0, fetched, pages, sitemaps, current);
    NothingWalked(web, target, start, maxSitemaps, maxUrls);
    while !last && current != [] && depth <= maxDepth && totalFetched < maxSitemaps
      invariant depth <= maxDepth + 1
      invariant Safe(web, target, start, maxSitemaps, Before(depth), fetched, pages, sitemaps)
      invariant |pages| <= Max(maxUrls, 1)
      invariant |pages| < maxUrls ==> pages == web.PagesOf(ToSet(fetched), target)
      invariant !last ==>
        && visited == ToSet(fetched) && totalFetched == |fetched|
        && Frontier(web, target, start, maxSitemaps, depth, fetched, pages, sitemaps, current)
        && (|pages| < maxUrls || depth == 0) && (depth == 0 ==> pages == {})
        && levels == depth && Walked(web, target, start, maxSitemaps, maxUrls, levels, n, fetched, pages)
        && forall d: nat :: d < depth ==> !late(d)
      invariant last ==>
        StopsBehind(web, target, start, maxSitemaps, maxDepth, maxUrls, late, levels, n, fetched, pages)
      decreases maxDepth + 1 - depth
    {
      if late(depth) {
        SafeIsMonotone(web, target, start, maxSitemaps, Before(depth), maxDepth, fetched, pages, sitemaps);
        WalkStops(web, target, start, maxSitemaps, maxDepth, maxUrls, late, levels, n, fetched, pages);
        return;
      }
      FrontierHasPages(web, target, start, maxSitemaps, depth, fetched, pages, sitemaps, current);
      FrontierHasLevels(web, target, start, maxSitemaps, depth, fetched, pages, sitemaps, current);
      ghost var fetched0, pages0 := fetched, pages;
      last, visited, totalFetched, current, pages, sitemaps, fetched :=
        WalkLevel(web, target, start, maxDepth, maxSitemaps, maxUrls, depth, visited, totalFetched, current,
                  pages, sitemaps, fetched);
      assert Before(depth + 1) == depth;
      if fetched == fetched0 {
        CompleteStops(web, target, start, maxSitemaps, maxDepth, maxUrls, late, levels, n, fetched, pages);
      } else {
        levels, n := depth + 1, |fetched0|;
        LevelIsWalked(web, target, start, maxSitemaps, maxUrls, depth, fetched0, pages0, fetched, pages);
        if last {
          WalkStops(web, target, start, maxSitemaps, maxDepth, maxUrls, late, levels, n, fetched, pages);
        }
      }
      depth := depth + 1;
    }
    SafeIsMonotone(web, target, start, maxSitemaps, Before(depth), maxDepth, fetched, pages, sitemaps);
    if !last && totalFetched < maxSitemaps {
      WalkExhausted(web, target, start, maxSitemaps, depth, maxDepth, fetched, pages, sitemaps, current);
      CompleteStops(web, target, start, maxSitemaps, maxDepth, maxUrls, late, levels, n, fetched, pages);
    } else if !last {
      WalkStops(web, target, start, maxSitemaps, maxDepth, maxUrls, late, levels, n, fetched, pages);
    }
  }

  /** The clock says so before level `k`, and not earlier. */
  ghost predicate FirstLate(late: nat -> bool, k: nat)
  {
    late(k) && forall d: nat :: d < k ==> !late(d)
  }

  lemma NothingWalked(web: Web, target: string, seeds: set<string>, maxSitemaps: nat, maxUrls: nat)
    ensures Walked(web, target, seeds, maxSitemaps, maxUrls, 0, 0, [], {})
  {
  }

  lemma FrontierHasLevels(web: Web, target: string, seeds: set<string>, maxSitemaps: nat, depth: nat,
                          fetched: seq<string>, pages: set<string>, found: seq<string>, current: seq<string>)
    requires Frontier(web, target, seeds, maxSitemaps, depth, fetched, pages, found, current) && |fetched| < maxSitemaps
    ensures ToSet(fetched) == Levels(web, target, seeds, depth)
  {
  }

  lemma LevelIsWalked(web: Web, target: string, seeds: set<string>, maxSitemaps: nat, maxUrls: nat, depth: nat,
                      fetched: seq<string>, pages: set<string>, fetched': seq<string>, pages': set<string>)
    requires OneLevel(web, target, seeds, maxSitemaps, maxUrls, depth, fetched, pages, fetched', pages')
    requires |fetched| < maxSitemaps && ToSet(fetched) == Levels(web, target, seeds, depth)
    requires pages == web.PagesOf(ToSet(fetched), target) && (|pages| < maxUrls || depth == 0)
    ensures Walked(web, target, seeds, maxSitemaps, maxUrls, depth + 1, |fetched|, fetched', pages')
  {
    hide Ball, FilledFairly, Web.PagesOf, Levels;
    assert fetched'[..|fetched|] == fetched;
  }

  lemma WalkStops(web: Web, target: string, seeds: set<string>, maxSitemaps: nat, maxDepth: nat, maxUrls: nat,
                  late: nat -> bool, levels: nat, n: nat, fetched: seq<string>, pages: set<string>)
    requires Walked(web, target, seeds, maxSitemaps, maxUrls, levels, n, fetched, pages)
    requires levels <= maxDepth + 1 && forall d: nat :: d < levels ==> !late(d)
    requires (levels <= maxDepth && late(levels)) || |fetched| >= maxSitemaps || (levels > 0 && |pages| >= maxUrls)
    ensures StopsBehind(web, target, seeds, maxSitemaps, maxDepth, maxUrls, late, levels, n, fetched, pages)
  {
    hide Walked;
  }

  lemma CompleteStops(web: Web, target: string, seeds: set<string>, maxSitemaps: nat, maxDepth: nat, maxUrls: nat,
                      late: nat -> bool, levels: nat, n: nat, fetched: seq<string>, pages: set<string>)
    requires Walked(web, target, seeds, maxSitemaps, maxUrls, levels, n, fetched, pages)
    requires levels <= maxDepth + 1 && forall d: nat :: d < levels ==> !late(d)
    requires Complete(web, target, seeds, maxDepth, fetched, pages)
    ensures StopsBehind(web, target, seeds, maxSitemaps, maxDepth, maxUrls, late, levels, n, fetched, pages)
  {
    hide Walked, Ball;
  }

  lemma LevelsMonotone(web: Web, target: string, seeds: set<string>, d: nat, e: nat)
    requires d <= e
    ensures Levels(web, target, seeds, d) <= Levels(web, target, seeds, e)
  {
    if d > 0 {
      BallMonotone(seeds, web.Links(target), d - 1, e - 1);
    }
  }

  lemma WalkedIsInLevels(web: Web, target: string, seeds: set<string>, maxSitemaps: nat, maxUrls: nat,
                         levels: nat, n: nat, fetched: seq<string>, pages: set<string>)
    requires Walked(web, target, seeds, maxSitemaps, maxUrls, levels, n, fetched, pages)
    ensures ToSet(fetched) <= Levels(web, target, seeds, levels)
    ensures |fetched| < maxSitemaps ==> ToSet(fetched) == Levels(web, target, seeds, levels)
  {
    hide Ball, FilledFairly, Web.PagesOf;
    if levels == 0 {
      assert ToSet(fetched) == {};
    }
  }

  /** A walk cut by the clock has fetched the levels before, and no part of another. */
  lemma LateWalkHasLevels(web: Web, target: string, seeds: set<string>, maxSitemaps: nat, maxDepth: nat, maxUrls: nat,
                          late: nat -> bool, levels: nat, n: nat, fetched: seq<string>, pages: set<string>, k: nat)
    requires StopsBehind(web, target, seeds, maxSitemaps, maxDepth, maxUrls, late, levels, n, fetched, pages)
    requires k <= maxDepth && FirstLate(late, k)
    ensures ToSet(fetched) <= Levels(web, target, seeds, k)
    ensures |fetched| < maxSitemaps && |pages| < maxUrls ==> ToSet(fetched) == Levels(web, target, seeds, k)
  {
    hide Walked, Ball;
    WalkedIsInLevels(web, target, seeds, maxSitemaps, maxUrls, levels, n, fetched, pages);
    assert levels <= k;
    LevelsMonotone(web, target, seeds, levels, k);
    LevelsMonotone(web, target, seeds, k, maxDepth + 1);
  }

  lemma LateWalkIsWhole(web: Web, target: string, seeds: set<string>, maxSitemaps: nat, maxDepth: nat, maxUrls: nat,
                        late: nat -> bool, levels: nat, n: nat, fetched: seq<string>, pages: set<string>,
                        found: seq<string>)
    requires StopsBehind(web, target, seeds, maxSitemaps, maxDepth, maxUrls, late, levels, n, fetched, pages)
    requires Safe(web, target, seeds, maxSitemaps, maxDepth, fetched, pages, found)
    requires |pages| < maxUrls ==> pages == web.PagesOf(ToSet(fetched), target)
    ensures CutByClock(web, target, seeds, maxSitemaps, maxDepth, maxUrls, late, pages, found)
  {
    hide Ball, ParentsFirst, IsRecognised, Web.Links, Roomy, AllWithinReach, FirstLate, StopsBehind, Safe;
    if late(0) {
      LateAtOnce(web, target, seeds, maxSitemaps, maxDepth, maxUrls, late, levels, n, fetched, pages, found);
    }
    forall k: nat | 0 < k <= maxDepth && FirstLate(late, k) && Roomy(web, target, seeds, maxSitemaps, k - 1, maxUrls)
      ensures AllWithinReach(web, target, seeds, k - 1, pages, found)
    {
      LateAtLevel(web, target, seeds, maxSitemaps, maxDepth, maxUrls, late, levels, n, fetched, pages, found, k);
    }
  }

  lemma LateAtOnce(web: Web, target: string, seeds: set<string>, maxSitemaps: nat, maxDepth: nat, maxUrls: nat,
                   late: nat -> bool, levels: nat, n: nat, fetched: seq<string>, pages: set<string>, found: seq<string>)
    requires StopsBehind(web, target, seeds, maxSitemaps, maxDepth, maxUrls, late, levels, n, fetched, pages)
    requires Safe(web, target, seeds, maxSitemaps, maxDepth, fetched, pages, found) && late(0)
    ensures pages == {} && found == []
  {
    hide Ball, ParentsFirst, IsRecognised, Web.Links, OneLevel;
    assert levels == 0;
  }

  lemma LateAtLevel(web: Web, target: string, seeds: set<string>, maxSitemaps: nat, maxDepth: nat, maxUrls: nat,
                    late: nat -> bool, levels: nat, n: nat, fetched: seq<string>, pages: set<string>,
                    found: seq<string>, k: nat)
    requires StopsBehind(web, target, seeds, maxSitemaps, maxDepth, maxUrls, late, levels, n, fetched, pages)
    requires Safe(web, target, seeds, maxSitemaps, maxDepth, fetched, pages, found)
    requires |pages| < maxUrls ==> pages == web.PagesOf(ToSet(fetched), target)
    requires 0 < k <= maxDepth && FirstLate(late, k) && Roomy(web, target, seeds, maxSitemaps, k - 1, maxUrls)
    ensures AllWithinReach(web, target, seeds, k - 1, pages, found)
  {
    hide Ball, ParentsFirst, IsRecognised, Web.Links, StopsBehind, FirstLate;
    LateWalkHasLevels(web, target, seeds, maxSitemaps, maxDepth, maxUrls, late, levels, n, fetched, pages, k);
    var reach := Ball(seeds, web.Links(target), k - 1);
    PagesOfMonotone(web, target, ToSet(fetched), reach);
    SubsetCount(pages, web.PagesOf(reach, target));
    DistinctCount(fetched);
    if |fetched| >= maxSitemaps {
      SubsetOfSameCount(ToSet(fetched), reach);
    }
    assert ToSet(fetched) == reach;
    assert forall u :: u in fetched <==> u in ToSet(fetched);
    SitemapsAmongDistinct(web, fetched);
  }

  lemma WalkStarts(web: Web, target: string, start: set<string>, current: seq<string>, maxSitemaps: nat)
    requires ToSet(current) == start
    ensures Safe(web, target, start, maxSitemaps, 0, [], {}, [])
    ensures Frontier(web, target, start, maxSitemaps, 0, [], {}, [], current)
  {
    assert forall u :: u in current ==> u in ToSet(current);
  }

  lemma SafeIsMonotone(web: Web, target: string, seeds: set<string>, maxSitemaps: nat, d: nat, e: nat,
                       fetched: seq<string>, pages: set<string>, found: seq<string>)
    requires d <= e && Safe(web, target, seeds, maxSitemaps, d, fetched, pages, found)
    ensures Safe(web, target, seeds, maxSitemaps, e, fetched, pages, found)
  {
    BallMonotone(seeds, web.Links(target), d, e);
  }

  method FilterSameSite(web: Web, target: string, urls: seq<string>) returns (kept: seq<string>)
    ensures ToSet(kept) == web.Seeds(urls, target)
  {
    kept := [];
    for i := 0 to |urls|
      invariant ToSet(kept) == web.Seeds(urls[..i], target)
    {
      assert forall u :: u in urls[..i + 1] <==> u in urls[..i] || u == urls[i];
      if web.SameSite(urls[i], target) {
        ToSetSnoc(kept, urls[i]);
        kept := kept + [urls[i]];
      }
    }
    assert urls[..|urls|] == urls;
  }
}
