/** The crawl loop: a breadth-first queue with dedup keys, a page cap, a billing counter and a stream of
    published states. Every fetch is answered anew: `answer(n, url)` is what the `n`-th page taken off
    the queue turns out to be. */
module Crawl {
  import opened Numbers
  import opened Reach
  import opened Text

  // ----- pages -----

  /** One `a[href]` of a page, after parsing. `key` is its dedup key, `fetchUrl` the URL as the page wrote
      it without the fragment. */
  datatype Link = Unparsed | Link(key: string, fetchUrl: string, safe: bool, sameOrigin: bool, asset: bool)
  {
    predicate Followed()
    {
      Link? && safe && sameOrigin && !asset
    }
  }

  datatype Block = Block(vendor: string, reason: string)

  const HTTP_ERROR_VENDOR := "http_error"
  const STRUCTURAL_FAILURE_VENDOR := "structural_failure"
  const ERROR_PAGE_MAX_TEXT := 2500

  /** What extraction made of a page and what the wall classifiers would say about it. `textLen` is the
      size of the body that was asked for, if there is one to measure. */
  datatype Extracted = Extracted(status: nat, textLen: Option<nat>, hasBody: bool, markdown: bool,
                                 classified: Option<Block>, errorPageWall: Option<Block>, carriedWall: Option<Block>)

  datatype Answer =
    | FetchError(error: string)
    | UnclearableWall(wallStatus: nat, verdict: Block)
    | CdnError(cdnStatus: nat)
    | ExtractionFailed(links: seq<Link>, failedStatus: nat, why: string)
    | Page(links: seq<Link>, page: Extracted)

  datatype ScrapeData = ScrapeData(sourceUrl: string, status: nat, hasBody: bool, block: Option<Block>,
                                   sentToModel: bool)

  function FailedPage(url: string, status: nat, block: Block): ScrapeData
  {
    ScrapeData(url, status, false, Some(block), false)
  }

  predicate ErrorPageSized(page: Extracted)
  {
    page.textLen.Some? && page.textLen.value < ERROR_PAGE_MAX_TEXT
  }

  /** `http_error`: the origin answered with an error and what we hold is its error page. */
  predicate HttpError(page: Extracted, block: Option<Block>)
  {
    && (block.Some? ==> block.value.vendor == STRUCTURAL_FAILURE_VENDOR)
    && page.status >= 400
    && ErrorPageSized(page)
  }

  /** The wall verdict on a page: the classifier's unless it is merely structural, then the wall an error
      page names, then the one the renderer carried for a body no bigger than an error page. */
  function WallVerdict(page: Extracted): Option<Block>
  {
    var classified :=
      if page.classified.Some? && page.classified.value.vendor != STRUCTURAL_FAILURE_VENDOR then page.classified
      else None;
    var named := if classified.None? && HttpError(page, classified) then page.errorPageWall else classified;
    if named.None? && ErrorPageSized(page) then page.carriedWall else named
  }

  function FinishPage(url: string, page: Extracted, wantsJson: bool): ScrapeData
  {
    var wall := WallVerdict(page);
    var block :=
      if wall.None? && HttpError(page, wall) then Some(Block(HTTP_ERROR_VENDOR, "Target returned an HTTP error"))
      else wall;
    ScrapeData(url, page.status, page.hasBody && wall.None?, block,
               wantsJson && block.None? && page.hasBody && page.markdown)
  }

  function DocumentOf(url: string, answer: Answer, wantsJson: bool): ScrapeData
  {
    match answer
    case FetchError(error) => FailedPage(url, 0, Block(HTTP_ERROR_VENDOR, error))
    case UnclearableWall(status, verdict) => FailedPage(url, status, verdict)
    case CdnError(status) => FailedPage(url, status, Block(HTTP_ERROR_VENDOR, "CDN could not reach origin"))
    case ExtractionFailed(_, status, why) => FailedPage(url, status, Block(HTTP_ERROR_VENDOR, why))
    case Page(_, page) => FinishPage(url, page, wantsJson)
  }

  /** An unmarked, and so billed, document is never an origin error page; a walled one carries no body;
      and only an unmarked one goes to the model. */
  lemma BilledDocumentsAreRealPages(url: string, answer: Answer, wantsJson: bool)
    ensures var d := DocumentOf(url, answer, wantsJson);
      && (d.block.None? ==> answer.Page? && !HttpError(answer.page, None) && d.hasBody == answer.page.hasBody)
      && (answer.Page? && WallVerdict(answer.page).Some? ==> d.block == WallVerdict(answer.page) && !d.hasBody)
      && (d.sentToModel ==> d.block.None? && d.hasBody)
      && (!answer.Page? ==> d.block.Some? && !d.hasBody)
  {
  }

  /** A body was measured and is smaller than an error page can be. */
  predicate HasSmallBody(page: Extracted)
  {
    page.textLen.Some? && page.textLen.value < 2500
  }

  /** The wall that a page is reported as: what the classifier names unless it is merely structural; else what an
      origin's small error page names; else, for a small body, what the renderer carried. */
  predicate IsWalledBy(page: Extracted, wall: Block)
  {
    var named := page.classified.Some? && page.classified.value.vendor != "structural_failure";
    if named then page.classified == Some(wall)
    else if page.status >= 400 && HasSmallBody(page) && page.errorPageWall.Some? then page.errorPageWall == Some(wall)
    else HasSmallBody(page) && page.carriedWall == Some(wall)
  }

  /** What becomes of a page, from its own fields alone. A wall is reported and its body dropped. Without one,
      a small page with an error status is reported and kept. Anything else is unmarked, and as it came. */
  lemma PageVerdict(url: string, links: seq<Link>, page: Extracted, wantsJson: bool)
    ensures var d := DocumentOf(url, Page(links, page), wantsJson);
      && d.sourceUrl == url && d.status == page.status
      && (forall wall :: IsWalledBy(page, wall) ==> d.block == Some(wall) && !d.hasBody)
      && ((forall wall :: !IsWalledBy(page, wall)) ==>
            && d.hasBody == page.hasBody
            && (d.block.Some? <==> page.status >= 400 && HasSmallBody(page))
            && (d.block.Some? ==> d.block.value.vendor == "http_error"))
      && (d.sentToModel <==> wantsJson && d.block.None? && page.hasBody && page.markdown)
  {
    if forall wall :: !IsWalledBy(page, wall) {
      assert page.classified.Some? ==> !IsWalledBy(page, page.classified.value);
      assert page.errorPageWall.Some? ==> !IsWalledBy(page, page.errorPageWall.value);
      assert page.carriedWall.Some? ==> !IsWalledBy(page, page.carriedWall.value);
    }
  }

  /** What becomes of a URL that gave no page: an empty document under its own URL, with the status there was and
      the verdict or the reason it failed for. */
  lemma FailureVerdict(url: string, answer: Answer, wantsJson: bool)
    requires !answer.Page?
    ensures var d := DocumentOf(url, answer, wantsJson);
      && d.sourceUrl == url && !d.hasBody && !d.sentToModel && d.block.Some?
      && d.status == (match answer
                      case FetchError(_) => 0
                      case UnclearableWall(status, _) => status
                      case CdnError(status) => status
                      case ExtractionFailed(_, status, _) => status)
      && (answer.UnclearableWall? ==> d.block == Some(answer.verdict))
      && (!answer.UnclearableWall? ==> d.block.value.vendor == "http_error")
      && (answer.FetchError? ==> d.block.value.reason == answer.error)
      && (answer.ExtractionFailed? ==> d.block.value.reason == answer.why)
  {
  }

  /** The links are followed even when the page itself could not be converted. */
  function LinksIn(answer: Answer): seq<Link>
  {
    match answer
    case Page(links, _) => links
    case ExtractionFailed(links, _, _) => links
    case _ => []
  }

  // ----- the history of a crawl -----

  /** A key, the URL queued for it and the depth it was queued at. */
  datatype Visit = Visit(key: string, url: string, depth: nat)

  datatype Entry = Entry(url: string, depth: nat)

  /** `permit(n)` says whether the semaphore is still open when the `n`-th page asks for its permit. */
  datatype Site = Site(answer: (nat, string) -> Answer, allowed: string -> bool, permit: nat -> bool, wantsJson: bool)
  {
    /** The links seen on the `n`-th page taken, none if robots refused it or it was not a page. */
    function LinksOf(n: nat, url: string): seq<Link>
    {
      if !allowed(url) then [] else LinksIn(answer(n, url))
    }

    /** The keys followed from the `n`-th page. */
    ghost function NextKeys(n: nat, url: string): set<string>
    {
      set l | l in LinksOf(n, url) && l.Link? && l.safe && l.sameOrigin && !l.asset :: l.key
    }
  }

  ghost function KeysOf(log: seq<Visit>): set<string>
  {
    set v | v in log :: v.key
  }

  ghost predicate DistinctKeys(log: seq<Visit>)
  {
    forall i, j :: 0 <= i < j < |log| ==> log[i].key != log[j].key
  }

  lemma KeysOfSnoc(log: seq<Visit>, v: Visit)
    ensures KeysOf(log + [v]) == KeysOf(log) + {v.key}
  {
    assert forall x :: x in log + [v] <==> x in log || x == v;
    assert v in log + [v];
    forall k | k in KeysOf(log)
      ensures k in KeysOf(log + [v])
    {
      var x :| x in log && x.key == k;
      assert x in log + [v];
    }
  }

  lemma {:induction false} DistinctKeysCount(log: seq<Visit>)
    requires DistinctKeys(log)
    ensures |KeysOf(log)| == |log|
  {
    if log != [] {
      var init, v := log[..|log| - 1], log[|log| - 1];
      assert log == init + [v];
      DistinctKeysCount(init);
      KeysOfSnoc(init, v);
      assert v.key !in KeysOf(init);
    }
  }

  function Entries(log: seq<Visit>): seq<Entry>
  {
    seq(|log|, i requires 0 <= i < |log| => Entry(log[i].url, log[i].depth))
  }

  // ----- admitting links -----

  ghost predicate Admits(log: seq<Visit>, l: Link, maxPages: nat)
  {
    l.Followed() && l.key !in KeysOf(log) && |log| < maxPages
  }

  /** The history after the links of a page at `depth` have been offered in turn. */
  ghost function Admit(log: seq<Visit>, links: seq<Link>, maxPages: nat, depth: nat): seq<Visit>
    decreases |links|
  {
    if links == [] then log
    else
      var l := links[0];
      Admit(if Admits(log, l, maxPages) then log + [Visit(l.key, l.fetchUrl, depth + 1)] else log,
            links[1..], maxPages, depth)
  }

  ghost predicate OfSomeLink(v: Visit, links: seq<Link>, depth: nat)
  {
    && v.depth == depth
    && exists l :: l in links && l.Link? && l.safe && l.sameOrigin && !l.asset && l.key == v.key && l.fetchUrl == v.url
  }

  /** Admission only appends, at one depth more, links that may be followed, each key once and within
      the cap; below the cap it leaves out none. */
  lemma {:induction false} AdmitIsExact(log: seq<Visit>, links: seq<Link>, maxPages: nat, depth: nat)
    requires DistinctKeys(log)
    ensures var after := Admit(log, links, maxPages, depth);
      && log <= after && DistinctKeys(after)
      && (|after| <= |log| || |after| <= maxPages)
      && (forall i :: |log| <= i < |after| ==> OfSomeLink(after[i], links, depth + 1))
      && (|after| < maxPages ==>
            forall l :: l in links && l.Link? && l.safe && l.sameOrigin && !l.asset ==> l.key in KeysOf(after))
    decreases |links|
  {
    if links != [] {
      var l := links[0];
      if Admits(log, l, maxPages) {
        var v := Visit(l.key, l.fetchUrl, depth + 1);
        NewKeyStaysDistinct(log, v);
        KeysOfSnoc(log, v);
        AdmitIsExact(log + [v], links[1..], maxPages, depth);
        var after := Admit(log + [v], links[1..], maxPages, depth);
        KeysOfPrefix(log + [v], after);
        assert after[|log|] == v && log <= after;
        assert l in links && OfSomeLink(v, links, depth + 1);
      } else {
        AdmitIsExact(log, links[1..], maxPages, depth);
        KeysOfPrefix(log, Admit(log, links[1..], maxPages, depth));
      }
      assert forall x :: x in links <==> x == l || x in links[1..];
    }
  }

  lemma NewKeyStaysDistinct(log: seq<Visit>, v: Visit)
    requires DistinctKeys(log) && v.key !in KeysOf(log)
    ensures DistinctKeys(log + [v])
  {
    assert forall i :: 0 <= i < |log| ==> log[i].key in KeysOf(log);
  }

  lemma KeysOfPrefix(log: seq<Visit>, after: seq<Visit>)
    requires log <= after
    ensures KeysOf(log) <= KeysOf(after)
  {
    assert forall v :: v in log ==> v in after;
  }

  // ----- what every crawl keeps -----

  /** Depths along the history never fall, never pass `maxDepth`, and whatever is queued is at most one
      deeper than the page taken last. */
  ghost predicate Layered(log: seq<Visit>, popped: nat, maxDepth: nat)
  {
    && log != [] && popped <= |log| && log[0].depth == 0
    && (forall i, j :: 0 <= i < j < |log| ==> log[i].depth <= log[j].depth)
    && (forall i :: 0 <= i < |log| ==> log[i].depth <= maxDepth)
    && (forall i :: 0 <= i < |log| ==> log[i].depth <= if popped == 0 then 0 else log[popped - 1].depth + 1)
  }

  /** Everything after the seed was followed from a page taken before, one level up. */
  ghost predicate Discovered(site: Site, log: seq<Visit>, popped: nat, maxDepth: nat)
  {
    forall i :: 0 < i < |log| ==> Found(site, log, popped, maxDepth, log[i])
  }

  ghost predicate Found(site: Site, log: seq<Visit>, popped: nat, maxDepth: nat, v: Visit)
  {
    exists n: nat :: FoundOn(site, log, popped, maxDepth, n, v)
  }

  ghost predicate FoundOn(site: Site, log: seq<Visit>, popped: nat, maxDepth: nat, n: nat, v: Visit)
  {
    && n < popped <= |log| && log[n].depth < maxDepth
    && OfSomeLink(v, site.LinksOf(n, log[n].url), log[n].depth + 1)
  }

  /** Below the cap, every link followed from a page taken so far is in the history, no deeper than one
      below that page. */
  ghost predicate Closed(site: Site, log: seq<Visit>, popped: nat, maxDepth: nat, maxPages: nat)
  {
    && popped <= |log|
    && (|log| < maxPages ==>
          forall n: nat, k :: n < popped && log[n].depth < maxDepth && k in site.NextKeys(n, log[n].url) ==>
            InHistory(log, k, log[n].depth + 1))
  }

  ghost predicate InHistory(log: seq<Visit>, k: string, depth: nat)
  {
    exists j :: 0 <= j < |log| && log[j].key == k && log[j].depth <= depth
  }

  /** One document for every page taken, save those robots refused. */
  function Documents(site: Site, log: seq<Visit>, popped: nat): seq<ScrapeData>
    requires popped <= |log|
  {
    if popped == 0 then []
    else
      var url := log[popped - 1].url;
      Documents(site, log, popped - 1)
      + if site.allowed(url) then [DocumentOf(url, site.answer(popped - 1, url), site.wantsJson)] else []
  }

  function Refused(site: Site, log: seq<Visit>, popped: nat): nat
    requires popped <= |log|
  {
    if popped == 0 then 0
    else Refused(site, log, popped - 1) + if site.allowed(log[popped - 1].url) then 0 else 1
  }

  lemma {:induction false} DocumentsAreCounted(site: Site, log: seq<Visit>, popped: nat)
    requires popped <= |log|
    ensures |Documents(site, log, popped)| + Refused(site, log, popped) == popped
  {
    if popped > 0 {
      DocumentsAreCounted(site, log, popped - 1);
    }
  }

  lemma {:induction false} DocumentsOfPrefix(site: Site, log: seq<Visit>, after: seq<Visit>, popped: nat)
    requires popped <= |log| && log <= after
    ensures Documents(site, log, popped) == Documents(site, after, popped)
  {
    if popped > 0 {
      DocumentsOfPrefix(site, log, after, popped - 1);
    }
  }

  function BlockedCount(docs: seq<ScrapeData>): nat
  {
    if docs == [] then 0
    else BlockedCount(docs[..|docs| - 1]) + if docs[|docs| - 1].block.Some? then 1 else 0
  }

  lemma {:induction false} BlockedCountAtMost(docs: seq<ScrapeData>, n: nat)
    requires n <= |docs|
    ensures BlockedCount(docs[..n]) <= BlockedCount(docs) <= |docs|
    decreases |docs|
  {
    if docs != [] {
      var init := docs[..|docs| - 1];
      BlockedCountAtMost(init, if n < |docs| then n else |init|);
      assert n < |docs| ==> init[..n] == docs[..n];
      assert n == |docs| ==> docs[..n] == docs;
    }
  }

  // ----- published states -----

  datatype Status = InProgress | Completed | Failed

  datatype CrawlState =
    CrawlState(status: Status, total: nat, completed: nat, blocked: nat, data: seq<ScrapeData>, error: Option<string>)

  function ProgressState(total: nat, docs: seq<ScrapeData>): CrawlState
  {
    CrawlState(InProgress, total, |docs|, BlockedCount(docs), [], None)
  }

  function FinalState(total: nat, docs: seq<ScrapeData>): CrawlState
  {
    CrawlState(Completed, total, |docs|, BlockedCount(docs), docs, None)
  }

  /** One progress state for every document, in order, carrying counters and no data. */
  ghost predicate Reported(states: seq<CrawlState>, docs: seq<ScrapeData>, total: nat)
  {
    && |states| == |docs| <= total
    && (forall i :: 0 <= i < |states| ==>
          && states[i] == ProgressState(states[i].total, docs[..i + 1])
          && i + 1 <= states[i].total <= total)
    && forall i, j :: 0 <= i < j < |states| ==> states[i].total <= states[j].total
  }

  /** `later` does not go back on `earlier`, and its counters are consistent. */
  ghost predicate Advances(earlier: CrawlState, later: CrawlState)
  {
    && earlier.total <= later.total && earlier.completed <= later.completed && earlier.blocked <= later.blocked
    && later.blocked <= later.completed <= later.total
  }

  lemma ReportedSnoc(states: seq<CrawlState>, docs: seq<ScrapeData>, total: nat, doc: ScrapeData, total': nat)
    requires Reported(states, docs, total) && total <= total' && |docs| < total'
    ensures Reported(states + [ProgressState(total', docs + [doc])], docs + [doc], total')
  {
    hide BlockedCount;
    var more := docs + [doc];
    assert more[..|docs| + 1] == more;
    forall n | 0 <= n <= |docs|
      ensures more[..n] == docs[..n]
    {
    }
  }

  /** The published stream: counters never go back, and blocked <= completed <= total in every state. */
  lemma ReportedAdvances(states: seq<CrawlState>, docs: seq<ScrapeData>, total: nat)
    requires Reported(states, docs, total)
    ensures var all := states + [FinalState(total, docs)];
      forall i, j :: 0 <= i < j < |all| ==> Advances(all[i], all[j])
  {
    var all := states + [FinalState(total, docs)];
    forall i, j | 0 <= i < j < |all|
      ensures Advances(all[i], all[j])
    {
      var n := if j < |states| then j + 1 else |docs|;
      assert docs[..|docs|] == docs;
      assert docs[..n][..i + 1] == docs[..i + 1];
      BlockedCountAtMost(docs[..n], i + 1);
    }
  }

  // ----- one page -----

  /** The history after the page at index `popped` has been dealt with. */
  ghost function AfterPage(site: Site, log: seq<Visit>, popped: nat, maxDepth: nat, maxPages: nat): seq<Visit>
    requires popped < |log|
  {
    var v := log[popped];
    if v.depth < maxDepth then Admit(log, site.LinksOf(popped, v.url), maxPages, v.depth) else log
  }

  lemma PageExtendsHistory(site: Site, log: seq<Visit>, popped: nat, maxDepth: nat, maxPages: nat)
    requires popped < |log| && DistinctKeys(log) && |log| <= Max(1, maxPages)
    ensures var after := AfterPage(site, log, popped, maxDepth, maxPages);
      log <= after && DistinctKeys(after) && |after| <= Max(1, maxPages)
  {
    AdmitIsExact(log, site.LinksOf(popped, log[popped].url), maxPages, log[popped].depth);
  }

  lemma PageKeepsLayered(site: Site, log: seq<Visit>, popped: nat, maxDepth: nat, maxPages: nat)
    requires popped < |log| && DistinctKeys(log) && Layered(log, popped, maxDepth)
    ensures Layered(AfterPage(site, log, popped, maxDepth, maxPages), popped + 1, maxDepth)
  {
    var v, after := log[popped], AfterPage(site, log, popped, maxDepth, maxPages);
    if v.depth < maxDepth {
      AdmitIsExact(log, site.LinksOf(popped, v.url), maxPages, v.depth);
      assert forall i :: |log| <= i < |after| ==> after[i].depth == v.depth + 1;
      assert forall i :: 0 <= i < |log| ==> after[i] == log[i];
      assert forall i :: 0 <= i < |log| ==> log[i].depth <= v.depth + 1;
    }
  }

  lemma PageKeepsDiscovered(site: Site, log: seq<Visit>, popped: nat, maxDepth: nat, maxPages: nat)
    requires popped < |log| && DistinctKeys(log) && Discovered(site, log, popped, maxDepth)
    ensures Discovered(site, AfterPage(site, log, popped, maxDepth, maxPages), popped + 1, maxDepth)
  {
    var v, after := log[popped], AfterPage(site, log, popped, maxDepth, maxPages);
    AdmitIsExact(log, site.LinksOf(popped, v.url), maxPages, v.depth);
    assert log <= after && after[popped] == v;
    forall i | 0 < i < |after|
      ensures Found(site, after, popped + 1, maxDepth, after[i])
    {
      if i < |log| {
        assert Found(site, log, popped, maxDepth, log[i]);
        var n: nat :| FoundOn(site, log, popped, maxDepth, n, log[i]);
        assert FoundOn(site, after, popped + 1, maxDepth, n, after[i]);
      } else {
        assert OfSomeLink(after[i], site.LinksOf(popped, v.url), v.depth + 1);
        assert FoundOn(site, after, popped + 1, maxDepth, popped, after[i]);
      }
    }
  }

  lemma PageKeepsClosed(site: Site, log: seq<Visit>, popped: nat, maxDepth: nat, maxPages: nat)
    requires popped < |log| && DistinctKeys(log) && Layered(log, popped, maxDepth)
    requires Closed(site, log, popped, maxDepth, maxPages)
    ensures Closed(site, AfterPage(site, log, popped, maxDepth, maxPages), popped + 1, maxDepth, maxPages)
  {
    hide Admit, DistinctKeys;
    var v, after := log[popped], AfterPage(site, log, popped, maxDepth, maxPages);
    AdmitIsExact(log, site.LinksOf(popped, v.url), maxPages, v.depth);
    PageKeepsLayered(site, log, popped, maxDepth, maxPages);
    assert log <= after;
    if |after| < maxPages {
      forall n: nat, k | n < popped + 1 && after[n].depth < maxDepth && k in site.NextKeys(n, after[n].url)
        ensures InHistory(after, k, after[n].depth + 1)
      {
        if n < popped {
          assert InHistory(log, k, log[n].depth + 1);
          var j :| 0 <= j < |log| && log[j].key == k && log[j].depth <= log[n].depth + 1;
          assert after[j].key == k && after[j].depth <= after[n].depth + 1;
        } else {
          assert k in KeysOf(after);
          var x :| x in after && x.key == k;
          var j :| 0 <= j < |after| && after[j] == x;
          assert after[j].key == k;
        }
      }
    }
  }

  /** Everything the crawl keeps between pages, the queue aside. */
  ghost predicate Kept(site: Site, maxDepth: nat, maxPages: nat, log: seq<Visit>, popped: nat,
                       results: seq<ScrapeData>, blocked: nat)
  {
    && DistinctKeys(log) && 1 <= |log| <= Max(1, maxPages)
    && Layered(log, popped, maxDepth)
    && Discovered(site, log, popped, maxDepth)
    && Closed(site, log, popped, maxDepth, maxPages)
    && results == Documents(site, log, popped)
    && blocked == BlockedCount(results)
  }

  lemma PageKept(site: Site, maxDepth: nat, maxPages: nat, log: seq<Visit>, popped: nat,
                 results: seq<ScrapeData>, blocked: nat)
    requires Kept(site, maxDepth, maxPages, log, popped, results, blocked) && popped < |log|
    ensures
      var url, after := log[popped].url, AfterPage(site, log, popped, maxDepth, maxPages);
      var docs := results
        + if site.allowed(url) then [DocumentOf(url, site.answer(popped, url), site.wantsJson)] else [];
      && log <= after
      && Kept(site, maxDepth, maxPages, after, popped + 1, docs, BlockedCount(docs))
  {
    PageExtendsHistory(site, log, popped, maxDepth, maxPages);
    PageKeepsLayered(site, log, popped, maxDepth, maxPages);
    PageKeepsDiscovered(site, log, popped, maxDepth, maxPages);
    PageKeepsClosed(site, log, popped, maxDepth, maxPages);
    DocumentsOfPrefix(site, log, AfterPage(site, log, popped, maxDepth, maxPages), popped);
  }

  /** With a positive cap the check against it at the head of the loop never fires: every document so
      far belongs to a page taken, and there is one more to take. */
  lemma ResultsStayBelowTheCap(site: Site, maxDepth: nat, maxPages: nat, log: seq<Visit>, popped: nat,
                               results: seq<ScrapeData>, blocked: nat)
    requires Kept(site, maxDepth, maxPages, log, popped, results, blocked)
    ensures |results| <= popped
    ensures popped < |log| && maxPages > 0 ==> |results| < maxPages
  {
    DocumentsAreCounted(site, log, popped);
  }

  // ----- breadth first -----

  ghost predicate AtDistance(base: string, edges: string -> set<string>, k: string, d: nat)
  {
    k in Ball({base}, edges, d) && (d > 0 ==> k !in Ball({base}, edges, d - 1))
  }

  /** A walk along links from `base` to `k`. */
  ghost predicate Leads(base: string, edges: string -> set<string>, walk: seq<string>, k: string)
  {
    IsWalk({base}, edges, walk) && walk[|walk| - 1] == k
  }

  /** Being at a distance means being at the end of a walk of that many links and of none with fewer. */
  lemma DistanceIsShortestWalk(base: string, edges: string -> set<string>, k: string, d: nat)
    ensures AtDistance(base, edges, k, d)
      <==> && (exists walk :: Leads(base, edges, walk, k) && |walk| == d + 1)
           && (forall walk :: Leads(base, edges, walk, k) ==> |walk| >= d + 1)
  {
    BallIsWalks({base}, edges, d, k);
    if d > 0 {
      BallIsWalks({base}, edges, d - 1, k);
    }
    hide Ball, IsWalk;
    if AtDistance(base, edges, k, d) {
      forall walk | Leads(base, edges, walk, k)
        ensures |walk| >= d + 1
      {
        assert walk != [] by { WalkIsNotEmpty(base, edges, walk, k); }
        assert d > 0 && |walk| <= d ==> IsWalk({base}, edges, walk) && |walk| <= d - 1 + 1;
      }
      var walk :| IsWalk({base}, edges, walk) && |walk| <= d + 1 && walk[|walk| - 1] == k;
      assert Leads(base, edges, walk, k) && |walk| == d + 1;
    }
    if walk :| Leads(base, edges, walk, k) && |walk| == d + 1 {
      assert IsWalk({base}, edges, walk) && |walk| <= d + 1 && walk[|walk| - 1] == k;
    }
  }

  lemma WalkIsNotEmpty(base: string, edges: string -> set<string>, walk: seq<string>, k: string)
    requires Leads(base, edges, walk, k)
    ensures walk != []
  {
  }

  lemma FinderOf(site: Site, log: seq<Visit>, popped: nat, maxDepth: nat, i: nat) returns (n: nat)
    requires Discovered(site, log, popped, maxDepth) && 0 < i < |log|
    ensures n < popped && n < |log| && log[i].depth == log[n].depth + 1
    ensures log[i].key in site.NextKeys(n, log[n].url)
  {
    assert Found(site, log, popped, maxDepth, log[i]);
    n :| FoundOn(site, log, popped, maxDepth, n, log[i]);
  }

  lemma {:induction false} DepthIsReachable(site: Site, log: seq<Visit>, popped: nat, maxDepth: nat,
                                            edges: string -> set<string>, i: nat)
    requires Layered(log, popped, maxDepth) && Discovered(site, log, popped, maxDepth) && i < |log|
    requires forall n: nat :: n < popped ==> site.NextKeys(n, log[n].url) == edges(log[n].key)
    ensures log[i].key in Ball({log[0].key}, edges, log[i].depth)
    decreases log[i].depth
  {
    if i == 0 {
      assert log[0].key in Ball({log[0].key}, edges, 0);
    } else {
      hide Ball;
      var n := FinderOf(site, log, popped, maxDepth, i);
      DepthIsReachable(site, log, popped, maxDepth, edges, n);
      BallStep({log[0].key}, edges, log[n].depth, log[n].key, log[i].key);
    }
  }

  lemma {:induction false} ReachableIsInHistory(site: Site, log: seq<Visit>, maxDepth: nat, maxPages: nat,
                                                edges: string -> set<string>, k: string, d: nat)
    requires Layered(log, |log|, maxDepth) && Closed(site, log, |log|, maxDepth, maxPages)
    requires |log| < maxPages && d <= maxDepth && k in Ball({log[0].key}, edges, d)
    requires forall n: nat :: n < |log| ==> site.NextKeys(n, log[n].url) == edges(log[n].key)
    ensures InHistory(log, k, d)
    decreases d
  {
    if d == 0 {
      assert log[0].key == k;
    } else if k in Ball({log[0].key}, edges, d - 1) {
      ReachableIsInHistory(site, log, maxDepth, maxPages, edges, k, d - 1);
    } else {
      var p :| p in Ball({log[0].key}, edges, d - 1) && k in edges(p);
      ReachableIsInHistory(site, log, maxDepth, maxPages, edges, p, d - 1);
      var j :| 0 <= j < |log| && log[j].key == p && log[j].depth <= d - 1;
      assert k in site.NextKeys(j, log[j].url);
      assert InHistory(log, k, log[j].depth + 1);
    }
  }

  /** When the links followed from a page depend on its key alone and the cap was not reached, a crawl
      that has taken every queued page has visited exactly the keys within `maxDepth` links of the seed,
      each at its shortest distance. */
  lemma CrawlFindsShortestDistances(site: Site, maxDepth: nat, maxPages: nat, log: seq<Visit>,
                                    results: seq<ScrapeData>, blocked: nat, edges: string -> set<string>)
    requires Kept(site, maxDepth, maxPages, log, |log|, results, blocked) && |log| < maxPages
    requires forall n: nat :: n < |log| ==> site.NextKeys(n, log[n].url) == edges(log[n].key)
    ensures KeysOf(log) == Ball({log[0].key}, edges, maxDepth)
    ensures forall i :: 0 <= i < |log| ==> AtDistance(log[0].key, edges, log[i].key, log[i].depth)
  {
    hide Ball, Kept;
    KeptOrder(site, maxDepth, maxPages, log, results, blocked);
    forall i | 0 <= i < |log|
      ensures AtDistance(log[0].key, edges, log[i].key, log[i].depth)
      ensures log[i].key in Ball({log[0].key}, edges, maxDepth)
    {
      VisitIsAtDistance(site, log, maxDepth, maxPages, edges, i);
    }
    forall k | k in Ball({log[0].key}, edges, maxDepth)
      ensures k in KeysOf(log)
    {
      ReachableIsInHistory(site, log, maxDepth, maxPages, edges, k, maxDepth);
    }
  }

  lemma KeptOrder(site: Site, maxDepth: nat, maxPages: nat, log: seq<Visit>, results: seq<ScrapeData>, blocked: nat)
    requires Kept(site, maxDepth, maxPages, log, |log|, results, blocked)
    ensures DistinctKeys(log) && Layered(log, |log|, maxDepth) && Discovered(site, log, |log|, maxDepth)
    ensures Closed(site, log, |log|, maxDepth, maxPages)
  {
  }

  lemma VisitIsAtDistance(site: Site, log: seq<Visit>, maxDepth: nat, maxPages: nat,
                          edges: string -> set<string>, i: nat)
    requires DistinctKeys(log) && Layered(log, |log|, maxDepth) && Discovered(site, log, |log|, maxDepth)
    requires Closed(site, log, |log|, maxDepth, maxPages) && |log| < maxPages && i < |log|
    requires forall n: nat :: n < |log| ==> site.NextKeys(n, log[n].url) == edges(log[n].key)
    ensures AtDistance(log[0].key, edges, log[i].key, log[i].depth)
    ensures log[i].key in Ball({log[0].key}, edges, maxDepth)
  {
    hide Ball, Closed, Discovered;
    DepthIsReachable(site, log, |log|, maxDepth, edges, i);
    BallMonotone({log[0].key}, edges, log[i].depth, maxDepth);
    if log[i].depth > 0 && log[i].key in Ball({log[0].key}, edges, log[i].depth - 1) {
      ReachableIsInHistory(site, log, maxDepth, maxPages, edges, log[i].key, log[i].depth - 1);
    }
  }

  /** A crawl that took every queued page returns one document for each, robots refusals aside, and its
      final counters say so. */
  lemma CrawlAccountsForEveryPage(site: Site, maxDepth: nat, maxPages: nat, log: seq<Visit>,
                                  results: seq<ScrapeData>, blocked: nat)
    requires Kept(site, maxDepth, maxPages, log, |log|, results, blocked)
    ensures var final := FinalState(|log|, results);
      && final.completed + Refused(site, log, |log|) == final.total
      && final.blocked == blocked <= final.completed
      && final.data == Documents(site, log, |log|)
  {
    DocumentsAreCounted(site, log, |log|);
    BlockedCountAtMost(results, |results|);
  }

  // ----- the loop -----

  const DEFAULT_MAX_DEPTH := 2
  const MAX_DEPTH_CEILING := 10
  const DEFAULT_MAX_PAGES := 100
  const MAX_PAGES_CEILING := 1000

  function Clamped(requested: Option<nat>, default: nat, ceiling: nat): (n: nat)
    ensures n <= ceiling
    ensures requested.Some? ==> if requested.value <= ceiling then n == requested.value else n == ceiling
    ensures requested.None? ==> if default <= ceiling then n == default else n == ceiling
  {
    var n := if requested.Some? then requested.value else default;
    if n <= ceiling then n else ceiling
  }

  /** The semaphore is closed to the next page, which robots allows. */
  predicate PermitDenied(site: Site, log: seq<Visit>, popped: nat)
  {
    popped < |log| && site.allowed(log[popped].url) && !site.permit(popped)
  }

  class Crawler {
    const site: Site
    const maxDepth: nat
    const maxPages: nat
    var visited: set<string>
    var queue: seq<Entry>
    var results: seq<ScrapeData>
    var blocked: nat
    /** Everything sent on the state channel. */
    var emitted: seq<CrawlState>
    /** How many entries have been taken off the queue. */
    var popped: nat
    ghost var log: seq<Visit>

    constructor (site: Site, maxDepth: Option<nat>, maxPages: Option<nat>)
      ensures this.site == site
      ensures this.maxDepth == Clamped(maxDepth, 2, 10) && this.maxPages == Clamped(maxPages, 100, 1000)
      ensures visited == {} && queue == [] && results == [] && blocked == 0 && emitted == []
      ensures popped == 0 && log == []
    {
      this.site := site;
      this.maxDepth := Clamped(maxDepth, DEFAULT_MAX_DEPTH, MAX_DEPTH_CEILING);
      this.maxPages := Clamped(maxPages, DEFAULT_MAX_PAGES, MAX_PAGES_CEILING);
      visited, queue, results, blocked, emitted := {}, [], [], 0, [];
      log, popped := [], 0;
    }

    /** The queue holds the visits not yet taken, and the counters belong to those that were. */
    ghost predicate Valid()
      reads this
    {
      && Kept(site, maxDepth, maxPages, log, popped, results, blocked)
      && visited == KeysOf(log)
      && popped <= |log| && queue == Entries(log[popped..])
      && Reported(emitted, results, |log|)
    }

    method EnqueueDiscoveredLinks(links: seq<Link>, depth: nat)
      requires visited == KeysOf(log) && DistinctKeys(log)
      modifies this`visited, this`queue, this`log
      ensures log == Admit(old(log), links, maxPages, depth)
      ensures old(log) <= log && DistinctKeys(log) && visited == KeysOf(log)
      ensures queue == old(queue) + Entries(log[|old(log)|..])
    {
      hide KeysOf, DistinctKeys, Entries;
      ghost var start := log;
      NothingToAdmit(log, maxPages, depth);
      AdmitIsExact(start, links, maxPages, depth);
      for i := 0 to |links|
        invariant start <= log && DistinctKeys(log) && visited == KeysOf(log)
        invariant Admit(log, links[i..], maxPages, depth) == Admit(start, links, maxPages, depth)
        invariant queue == old(queue) + Entries(log[|start|..])
      {
        var l := links[i];
        assert links[i..][0] == l && links[i..][1..] == links[i + 1..];
        DistinctKeysCount(log);
        if l.Followed() {
          if l.key !in visited && |visited| < maxPages {
            VisitAppended(start, log, Visit(l.key, l.fetchUrl, depth + 1));
            visited := visited + {l.key};
            queue := queue + [Entry(l.fetchUrl, depth + 1)];
            log := log + [Visit(l.key, l.fetchUrl, depth + 1)];
          }
        }
      }
    }

    /** Publishes progress for the documents so far. */
    method SendProgress()
      modifies this`emitted
      ensures emitted == old(emitted) + [CrawlState(InProgress, |visited|, |results|, blocked, [], None)]
    {
      emitted := emitted + [CrawlState(InProgress, |visited|, |results|, blocked, [], None)];
    }

    method PushFailedPage(data: ScrapeData)
      modifies this`results, this`blocked, this`emitted
      ensures results == old(results) + [data] && blocked == old(blocked) + 1
      ensures emitted == old(emitted) + [CrawlState(InProgress, |visited|, |results|, blocked, [], None)]
    {
      results := results + [data];
      blocked := blocked + 1;
      SendProgress();
    }

    /** What one answer adds: links to the queue, one document to the results, one published state. */
    method RecordAnswer(url: string, depth: nat, answer: Answer)
      requires visited == KeysOf(log) && DistinctKeys(log)
      modifies this`visited, this`queue, this`log, this`results, this`blocked, this`emitted
      ensures log == Admit(old(log), if depth < maxDepth then LinksIn(answer) else [], maxPages, depth)
      ensures old(log) <= log && DistinctKeys(log) && visited == KeysOf(log)
      ensures queue == old(queue) + Entries(log[|old(log)|..])
      ensures results == old(results) + [DocumentOf(url, answer, site.wantsJson)]
      ensures blocked == old(blocked) + if DocumentOf(url, answer, site.wantsJson).block.Some? then 1 else 0
      ensures emitted == old(emitted) + [CrawlState(InProgress, |visited|, |results|, blocked, [], None)]
    {
      hide Admit, DistinctKeys, KeysOf;
      NothingToAdmit(log, maxPages, depth);
      match answer {
        case FetchError(error) =>
          PushFailedPage(FailedPage(url, 0, Block(HTTP_ERROR_VENDOR, error)));
        case UnclearableWall(status, verdict) =>
          PushFailedPage(FailedPage(url, status, verdict));
        case CdnError(status) =>
          PushFailedPage(FailedPage(url, status, Block(HTTP_ERROR_VENDOR, "CDN could not reach origin")));
        case ExtractionFailed(links, status, why) =>
          if depth < maxDepth {
            EnqueueDiscoveredLinks(links, depth);
          }
          PushFailedPage(FailedPage(url, status, Block(HTTP_ERROR_VENDOR, why)));
        case Page(links, page) =>
          if depth < maxDepth {
            EnqueueDiscoveredLinks(links, depth);
          }
          var data := FinishPage(url, page, site.wantsJson);
          if data.block.Some? {
            blocked := blocked + 1;
          }
          results := results + [data];
          SendProgress();
      }
    }

    /** One turn of the loop. It ends the crawl, publishing nothing, only when the page cap is zero or
        the semaphore has been closed. */
    method TakePage() returns (go: bool)
      requires Valid() && queue != []
      modifies this
      ensures old(log) <= log && |log| <= Max(1, maxPages)
      ensures go ==> Valid() && popped == old(popped) + 1
      ensures go ==> (site.allowed(log[old(popped)].url) ==> site.permit(old(popped)))
      ensures go ==> (Max(1, maxPages) - |log|) + |queue| < old((Max(1, maxPages) - |log|) + |queue|)
      ensures !go ==>
        && Kept(site, maxDepth, maxPages, log, popped, results, blocked)
        && visited == KeysOf(log) && Reported(emitted, results, |log|)
        && (maxPages == 0 || PermitDenied(site, log, popped))
      ensures !go ==>
        && log == old(log) && popped == old(popped) && visited == old(visited)
        && results == old(results) && blocked == old(blocked) && emitted == old(emitted)
    {
      hide Kept, Reported, Admit, BlockedCount, KeysOf, DistinctKeys, Entries, DocumentOf;
      ghost var log0, results0, blocked0, emitted0 := log, results, blocked, emitted;
      var head := queue[0];
      queue := queue[1..];
      QueueHead(log0, popped);
      KeptCounts(site, maxDepth, maxPages, log0, popped, results, blocked, queue);
      ResultsStayBelowTheCap(site, maxDepth, maxPages, log0, popped, results, blocked);
      PageKept(site, maxDepth, maxPages, log0, popped, results, blocked);
      if |results| >= maxPages {
        return false;
      }
      if !site.allowed(head.url) {
        AfterPageWithoutLinks(site, log0, popped, maxDepth, maxPages);
        assert results + [] == results;
        popped := popped + 1;
        return true;
      }
      if !site.permit(popped) {
        return false;
      }
      var answer := site.answer(popped, head.url);
      RecordAnswer(head.url, head.depth, answer);
      NothingToAdmit(log0, maxPages, head.depth);
      assert log == AfterPage(site, log0, popped, maxDepth, maxPages);
      ghost var doc := DocumentOf(head.url, answer, site.wantsJson);
      BlockedCountSnoc(results0, doc);
      KeptCounts(site, maxDepth, maxPages, log, popped + 1, results, blocked, queue);
      ReportedSnoc(emitted0, results0, |log0|, doc, |log|);
      QueueGrows(log0, log, popped + 1);
      popped := popped + 1;
      return true;
    }

    method Run(seedUrl: string, seedKey: string, seedError: Option<string>)
      requires visited == {} && queue == [] && results == [] && blocked == 0 && emitted == [] && popped == 0
      modifies this
      ensures seedError.Some? ==> emitted == [CrawlState(Failed, 0, 0, 0, [], seedError)]
      ensures seedError.None? ==>
        && Kept(site, maxDepth, maxPages, log, popped, results, blocked)
        && log[0] == Visit(seedKey, seedUrl, 0) && visited == KeysOf(log)
        && emitted != [] && emitted[|emitted| - 1] == FinalState(|log|, results)
        && Reported(emitted[..|emitted| - 1], results, |log|)
        && (popped == |log| || maxPages == 0 || PermitDenied(site, log, popped))
        && (forall n: nat :: n < popped && site.allowed(log[n].url) ==> site.permit(n))
    {
      hide Kept, Entries, Reported, KeysOf, BlockedCount, DistinctKeys;
      if seedError.Some? {
        emitted := emitted + [CrawlState(Failed, 0, 0, 0, [], seedError)];
        return;
      }
      queue := queue + [Entry(seedUrl, 0)];
      visited := visited + {seedKey};
      ghost var seed := Visit(seedKey, seedUrl, 0);
      log := [seed];
      CrawlStarts(site, maxDepth, maxPages, seed);
      var go := true;
      while go && queue != []
        invariant [seed] <= log && |log| <= Max(1, maxPages)
        invariant go ==> Valid()
        invariant !go ==>
          && Kept(site, maxDepth, maxPages, log, popped, results, blocked)
          && visited == KeysOf(log) && Reported(emitted, results, |log|)
          && (maxPages == 0 || PermitDenied(site, log, popped))
        invariant popped <= |log| && forall n: nat :: n < popped && site.allowed(log[n].url) ==> site.permit(n)
        decreases go, (Max(1, maxPages) - |log|) + |queue|
      {
        go := TakePage();
      }
      KeptCounts(site, maxDepth, maxPages, log, popped, results, blocked, queue);
      ghost var reports := emitted;
      emitted := emitted + [CrawlState(Completed, |visited|, |results|, blocked, results, None)];
      assert emitted[..|emitted| - 1] == reports;
    }
  }

  /** A whole crawl from a valid seed: what it took, what it found there, and the stream it published. It ends
      with an empty queue, unless the cap is zero or the semaphore is closed to a page. */
  method CrawlSite(site: Site, maxDepth: Option<nat>, maxPages: Option<nat>, seedUrl: string, seedKey: string)
    returns (states: seq<CrawlState>, ghost log: seq<Visit>, ghost popped: nat)
    ensures states != [] && log != [] && log[0] == Visit(seedKey, seedUrl, 0) && DistinctKeys(log)
    ensures var final := states[|states| - 1];
      final.status == Completed && final.total == |log| && final.completed == |final.data| == |states| - 1
    ensures forall i, j :: 0 <= i < j < |states| ==> Advances(states[i], states[j])
    ensures var final, depth, pages := states[|states| - 1], Clamped(maxDepth, 2, 10), Clamped(maxPages, 100, 1000);
      && Kept(site, depth, pages, log, popped, final.data, final.blocked)
      && Reported(states[..|states| - 1], final.data, |log|)
      && (popped == |log| || pages == 0 || PermitDenied(site, log, popped))
      && (forall n: nat :: n < popped <= |log| && site.allowed(log[n].url) ==> site.permit(n))
  {
    hide Layered, Discovered, Closed, Documents, BlockedCount, DistinctKeys, KeysOf, Advances;
    var crawler := new Crawler(site, maxDepth, maxPages);
    crawler.Run(seedUrl, seedKey, None);
    states, log, popped := crawler.emitted, crawler.log, crawler.popped;
    var n := |states| - 1;
    ReportedAdvances(states[..n], crawler.results, |log|);
    assert states == states[..n] + [FinalState(|log|, crawler.results)];
  }

  lemma CrawlStarts(site: Site, maxDepth: nat, maxPages: nat, seed: Visit)
    requires seed.depth == 0
    ensures Kept(site, maxDepth, maxPages, [seed], 0, [], 0)
    ensures KeysOf([seed]) == {seed.key} && Entries([seed][0..]) == [Entry(seed.url, 0)]
    ensures Reported([], [], 1)
  {
    assert [] + [seed] == [seed] && [seed][0..] == [seed];
    KeysOfSnoc([], seed);
  }

  lemma KeptCounts(site: Site, maxDepth: nat, maxPages: nat, log: seq<Visit>, popped: nat,
                   results: seq<ScrapeData>, blocked: nat, queue: seq<Entry>)
    requires Kept(site, maxDepth, maxPages, log, popped, results, blocked)
    ensures DistinctKeys(log) && |KeysOf(log)| == |log| && blocked == BlockedCount(results)
    ensures popped <= |log| && (Entries(log[popped..]) == [] ==> popped == |log|)
  {
    DistinctKeysCount(log);
    assert |Entries(log[popped..])| == |log| - popped;
  }

  lemma VisitAppended(start: seq<Visit>, log: seq<Visit>, v: Visit)
    requires start <= log && DistinctKeys(log) && v.key !in KeysOf(log)
    ensures start <= log + [v] && DistinctKeys(log + [v]) && KeysOf(log + [v]) == KeysOf(log) + {v.key}
    ensures Entries((log + [v])[|start|..]) == Entries(log[|start|..]) + [Entry(v.url, v.depth)]
  {
    NewKeyStaysDistinct(log, v);
    KeysOfSnoc(log, v);
    assert (log + [v])[|start|..] == log[|start|..] + [v];
  }

  lemma NothingToAdmit(log: seq<Visit>, maxPages: nat, depth: nat)
    ensures Admit(log, [], maxPages, depth) == log
    ensures log[|log|..] == [] && Entries([]) == [] && forall q: seq<Entry> :: q + Entries(log[|log|..]) == q
  {
  }

  lemma QueueGrows(log: seq<Visit>, after: seq<Visit>, popped: nat)
    requires popped <= |log| && log <= after
    ensures Entries(log[popped..]) + Entries(after[|log|..]) == Entries(after[popped..])
    ensures |Entries(after[|log|..])| == |after| - |log|
  {
  }

  lemma QueueHead(log: seq<Visit>, popped: nat)
    requires popped <= |log| && Entries(log[popped..]) != []
    ensures popped < |log|
    ensures Entries(log[popped..])[0] == Entry(log[popped].url, log[popped].depth)
    ensures Entries(log[popped..])[1..] == Entries(log[popped + 1..])
  {
  }

  lemma AfterPageWithoutLinks(site: Site, log: seq<Visit>, popped: nat, maxDepth: nat, maxPages: nat)
    requires popped < |log| && site.LinksOf(popped, log[popped].url) == []
    ensures AfterPage(site, log, popped, maxDepth, maxPages) == log
  {
  }

  lemma BlockedCountSnoc(docs: seq<ScrapeData>, doc: ScrapeData)
    ensures BlockedCount(docs + [doc]) == BlockedCount(docs) + if doc.block.Some? then 1 else 0
  {
    assert (docs + [doc])[..|docs|] == docs;
  }
}
