# The crawler's decision cores, in Dafny

A model of the parts of the crawler that decide something, with proofs about them. Networks, browsers and
parsers are parameters; what is left is the logic that has to be right whatever they answer.

- `RobotsParse`, `RobotsLines`, `RobotsMatch`, `RobotsRules`: reading robots.txt, what is made of its text, matching a
  rule against a path, and choosing among the rules that match, each compared with RFC 9309 (sections 2.2 to 2.2.4).
- `SitemapWalk`, `RenderBudget`: the bounded walk over a site's sitemap graph, and the compare-exchange loop by
  which concurrent fetches share a rendering budget.
- `Crawl`, `MapDiscovery`, `MapOrder`, `Normalize`: the crawl loop, the level-by-level URL discovery, when the order of
  landing decides its result, and the canonicalisation that gives both their dedup keys.
- `CacheKey`, `PageCache`: the cache key, and every run of requests against the cache.
- `Preflight` with `DepthFirst`: the release check over feature tables and the package graph.
- `Redact`, `Usage`, `Deadlines`: masking credentials in text, folding token usage, and nested timeouts.
- `Text`, `Sequences`, `Numbers`, `Reach`: string operations, sequences read as sets, minimum and maximum, and sets of
  nodes within `d` links.

Code that updates state in the source does so here: the crawler, the cache, the usage record, the feature walk and
the shared visited set are classes, the loops are loops with invariants. Each is proved against a function or a
predicate, and what that function or predicate means is proved beside it. Concurrency is a state machine over
steps, or an arbitrary order in which results land.

## Where the code and its documentation part

Each of these is proved, and where the code falls short of what is promised, so is an input that shows it and a condition
under which it does not.

- An unknown line between two `User-agent` lines (`Crawl-delay`, `Host`) cuts their group in two, where the standard has it
  interfere with nothing; a site that is closed to us can so come out open (`RobotsParse.UnknownLineOpensSite`). The groups
  are those of the standard if and only if no two agent lines have one or more lines between them, all unknown
  (`RobotsParse.GroupsAgree`).
- A directive with blanks before its colon (`Disallow : /`), which the standard allows, is not recognised, and one without
  always is (`RobotsLines.ColonMustFollowAtOnce`).
- A robots.txt pattern with both `*` and a final `$` misses paths: a single leftmost match is compared with the
  path's end and never retried. The pattern `/*$` misses `/x`; every pattern that combines the two misses some path,
  and no other pattern misses any (`RobotsMatch.ExactIffNotStarAndDollar`).
- A Disallow has no effect, whatever it matches, if and only if it is made of stars and dollars; `Disallow: *` is one
  (`RobotsRules.ForbidsNothingIff`, `RobotsRules.WildcardsOnlyIff`).
- A canonical URL lowers the scheme, except for a URL with nothing but slashes behind `://`
  (`Normalize.CaseIsIgnoredIff`, `Normalize.BareSchemesKeepTheirCase`).
- The release check runs the real names of unconditional dependencies through the alias table, so a dependency that is
  renamed while another is renamed to its old name is reported under the wrong name. Weak feature entries aside, it is
  right for every feature table if and only if the table maps the unconditional dependencies to themselves
  (`Preflight.RightForAllFeaturesIff`, `Preflight.RenamedDependencyIsMissed`).
- It also takes a weak feature entry (`dep?/feature`) for one that pulls the dependency. With such a table it then reports
  too much if and only if some dependency that is only named weakly is pulled by nothing else
  (`Preflight.RightIffWeakPullsAreReal`, `Preflight.WeakEntryIsReported`); it never misses anything for that
  (`Preflight.SoundTablesMissNothing`).
- The call count of folded usage depends on which leg comes first if a leg counts no call (`Usage.CallsAgreeIff`).
- The cache misses of folded usage can depend on the order of the legs (`Usage.MissesDependOnOrder`). All orders agree if
  and only if no leg reports a miss count, or pooling those that report none keeps their misses, or even the least count
  saturates. Pooling keeps misses if and only if none of these legs has any, or none claims more hits than input and their
  input stays below the cap (`Usage.MissesAgreeIff`).
- Nor need the misses be the sum over the legs, even if every leg's hits are within its input
  (`Usage.MissesFallShortPastTheCap`); when they are, for legs in a given order, is `Usage.MissesAddUpIff`.
- Extending deadlines covers the whole tier ladder only if a browser tier is active, and can fall short without one
  (`Deadlines.FullLadderFitsIff`, `Deadlines.HttpOnlyLadderIsNotCovered`).
- What map discovery reports can depend on the order in which pages land, even if nothing is cut: a key that one page links
  to as a static asset (`/a.jpg`) and another as a page (`/a.jpg/`) is fetched only if the second lands first, and what it
  links to is found only then (`MapOrder.OrderDecidesResult`). All orders of a level queue the same pages if and only if
  its pages agree on the status, at the first listing, of every new key that may be fetched (`MapOrder.NextAgreesIff`),
  and where that holds throughout, all uncut runs report the same (`MapOrder.OneResult`).
- A cache hit that escalates stores the new body under the status, final URL and warning of the entry it read, and dates
  all of it anew (`PageCache.EscalatedHitRedatesFacts`). So a reader can be served a status that is older than its limit:
  there is a run that does so if and only if its request is cacheable, may escalate, and has a key short enough to store
  anything under (`PageCache.StaleFactsIff`). The body is never too old.
- The crawl's check of its results against the page cap at the head of the loop can only fire for a cap of zero
  (`Crawl.ResultsStayBelowTheCap`).

## Model

| member | source | states |
|---|---|---|
| RobotsMatch.MatchesPattern | crates/crw-crawl/src/robots.rs:202-247 | the segment loop answers exactly: some prefix of the path is matched by the pattern's wildcards; with a final `$`, the whole path is and no proper prefix is |
| RobotsMatch.Segments | crates/crw-crawl/src/robots.rs:219 | splitting at `*` gives star-free segments that join back to the pattern |
| RobotsMatch.LeastEndStep | crates/crw-crawl/src/robots.rs:222-239 | the exchange argument: the leftmost occurrence of the next segment extends the least end of any placement of the earlier ones to the least end of any placement of one more |
| RobotsMatch.Sound | crates/crw-crawl/src/robots.rs:202-247 | every path the code matches has a placement of the wildcards as section 2.2.3 of RFC 9309 asks |
| RobotsMatch.MissedPath | crates/crw-crawl/src/robots.rs:241-246 | for every pattern with a star and a final `$`, a path that the standard matches and the code does not |
| RobotsMatch.ExactIffNotStarAndDollar | crates/crw-crawl/src/robots.rs:202-247 | code and standard agree on all paths if and only if the pattern does not combine a star with a final `$` |
| RobotsMatch.StarDollarCounterexamples | crates/crw-crawl/src/robots.rs:241-246 | the two concrete paths on which they part |
| RobotsLines.LineReadsBack | crates/crw-crawl/src/robots.rs:90-131 | every line that states something, in any letter case, between blanks, with a comment behind it, is read as what it states; blank lines and comments as nothing; any other line as unknown |
| RobotsLines.FileReadsBack | crates/crw-crawl/src/robots.rs:80-131 | a file of such lines, with LF or CRLF, has just the records and sitemaps that its lines state |
| RobotsLines.ParseFile | crates/crw-crawl/src/robots.rs:80-151 | so the parser returns the rules binding us among those its lines state, and their sitemaps |
| RobotsLines.ColonMustFollowAtOnce | crates/crw-crawl/src/robots.rs:250-259 | a directive's name with blanks before the colon is unknown, without any it is not |
| RobotsLines.DisallowCloses | crates/crw-crawl/src/robots.rs:122-126 | a file of two lines that closes a path to everyone |
| RobotsLines.UsInAnyCase | crates/crw-crawl/src/robots.rs:101-102 | we are named by our token in any letter case, and by nothing else |
| RobotsParse.Parse | crates/crw-crawl/src/robots.rs:80-151 | the one-pass parser with its four flags yields the rules that the two-pass reading binds us to (split into groups, which any line but a sitemap line can close, then all groups naming us, else all naming everyone, in file order) and every non-empty sitemap; where no unknown line splits a run of agents, these are the rules of the standard's groups |
| RobotsParse.GroupsAgree | crates/crw-crawl/src/robots.rs:96-136 | the groups are those of section 2.2.4 of RFC 9309 if and only if no unknown line splits a run of agents, and never fewer |
| RobotsParse.UnknownLineOpensSite | crates/crw-crawl/src/robots.rs:119-136 | four lines of which the standard forbids us everything and the code nothing |
| RobotsParse.HasUsIffGroupNamesUs | crates/crw-crawl/src/robots.rs:96-106 | whether an agent line names us anywhere behind the first agent is whether some group names us, even one without rules |
| RobotsParse.AgentOpensGroup | crates/crw-crawl/src/robots.rs:96-107 | what an agent line does to the rules still to come: in a run it joins the group, behind a rule it opens one |
| RobotsParse.MemberClosesRun | crates/crw-crawl/src/robots.rs:119-144 | what a line other than an agent or sitemap line does to the rules still to come: it closes the run and, if a rule, belongs to the open group |
| RobotsParse.OnlyEveryoneIsEveryone | crates/crw-crawl/src/robots.rs:138-149 | when no group names us, the bucket for groups that name only everyone holds the rules of all that name everyone |
| RobotsRules.IsAllowed | crates/crw-crawl/src/robots.rs:157-175 | a path is refused if and only if a matching Disallow of positive specificity is strictly more specific than every matching Allow |
| RobotsRules.BestOfExtended | crates/crw-crawl/src/robots.rs:161-169 | one turn of the loop keeps the best match the best among the rules seen |
| RobotsRules.ForbiddenIffBestDisallows | crates/crw-crawl/src/robots.rs:171-174 | the sense of the best match decides between the two sides of the declarative verdict |
| RobotsRules.OrderIrrelevant | crates/crw-crawl/src/robots.rs:157-175 | permuting or repeating rules changes no verdict |
| RobotsRules.RulesAreMonotone | crates/crw-crawl/src/robots.rs:157-175 | one more Allow forbids nothing, one more Disallow opens nothing |
| RobotsRules.ForbidsNothingIff | crates/crw-crawl/src/robots.rs:157-175 | adding a Disallow changes no verdict of any rules on any path if and only if its effective length is zero |
| RobotsRules.EffectiveLenCounts | crates/crw-crawl/src/robots.rs:196-198 | the specificity of a pattern is the number of its characters other than star and dollar |
| RobotsRules.WildcardsOnlyIff | crates/crw-crawl/src/robots.rs:196-198 | the effective length is zero exactly for patterns of stars and dollars |
| RobotsRules.MatchesItsLiterals | crates/crw-crawl/src/robots.rs:202-247 | the code matches every pattern on the path made of its own literals |
| SitemapWalk.FetchSitemapTree | crates/crw-crawl/src/sitemap.rs:442-612 | for every graph: no document fetched twice, no more than the cap, only same-site documents within `max_depth` links of a same-site seed, only their same-site pages, each sitemap a seed or behind a parent; it comes level by level, each complete before the next, the last filled fairly, and stops only for want of time, room or anything more; with room, exactly all pages and sitemaps in reach, or of the levels before the clock cut it |
| SitemapWalk.Walk | crates/crw-crawl/src/sitemap.rs:478-599 | the loop over the levels keeps all this, and stops behind the last level it was in time for |
| SitemapWalk.LevelIsOne | crates/crw-crawl/src/sitemap.rs:483-576 | what a turn fetches is one level, whole if the fetch cap allows, its pages added in fair turns |
| SitemapWalk.LateWalkHasLevels | crates/crw-crawl/src/sitemap.rs:478-482 | a walk cut by the clock before level `k` and by no cap has fetched the levels before, and no part of another |
| SitemapWalk.LateWalkIsWhole | crates/crw-crawl/src/sitemap.rs:478-482 | with room for these, it returns exactly their pages and sitemaps |
| SitemapWalk.OutcomeReads | crates/crw-crawl/src/sitemap.rs:503-531 | a walled document says what the renderer got out of it, and counts as a sitemap if that is anything |
| SitemapWalk.SafeIsWithinReach | crates/crw-crawl/src/sitemap.rs:442-612 | when the caps have room for what is in reach, none cuts anything off, and what was fetched decides what is returned |
| SitemapWalk.SitemapsAmongDistinct | crates/crw-crawl/src/sitemap.rs:547-553 | the reported sitemaps are exactly the recognised documents among those fetched, each once |
| SitemapWalk.WalkLevel | crates/crw-crawl/src/sitemap.rs:478-599 | one level keeps these, whatever order its fetches land in, and a last level that hit no cap leaves nothing out |
| SitemapWalk.TakeUnvisited | crates/crw-crawl/src/sitemap.rs:483-488 | the batch is new, distinct and within the budget; below the budget nothing of the frontier is left unvisited |
| SitemapWalk.MergeLevel | crates/crw-crawl/src/sitemap.rs:536-560 | the recognised sitemaps in order, each document's pages, and as next frontier exactly the unvisited same-site children |
| SitemapWalk.FillRoundRobin | crates/crw-crawl/src/sitemap.rs:561-576 | the cursors stop in a fair position, the pages added are the same-site entries before them, at most the cap; the fill stops only at the cap or with every list exhausted |
| SitemapWalk.ReadNext | crates/crw-crawl/src/sitemap.rs:563-572 | reading one entry keeps the fill's invariant and stops exactly at the cap |
| SitemapWalk.InRoundIsFair | crates/crw-crawl/src/sitemap.rs:561-578 | in the middle of any round, no list is more than one entry ahead of one that still has entries |
| SitemapWalk.FilterSameSite | crates/crw-crawl/src/sitemap.rs:471-474 | exactly the same-site seeds are kept |
| Reach.BallIsWalks | crates/crw-crawl/src/sitemap.rs:478-599 | what counts as within `d` links is what some walk of at most `d` links ends in |
| SitemapWalk.WalkExhausted | crates/crw-crawl/src/sitemap.rs:478-492 | a frontier without anything new means that everything within `max_depth` has been fetched, cycles included |
| SitemapWalk.ParentsFirstExtended | crates/crw-crawl/src/sitemap.rs:547-553 | appending documents whose parents are listed keeps every document behind a parent |
| SitemapWalk.LevelKeepsSafe | crates/crw-crawl/src/sitemap.rs:478-599 | what holds whatever cuts the walk short carries over a level |
| SitemapWalk.LevelKeepsFrontier | crates/crw-crawl/src/sitemap.rs:555-559 | the frontier stays complete while no cap is hit |
| RenderBudget.StepKeepsInv | crates/crw-crawl/src/sitemap.rs:388-404 | every step of any task, spurious failures and stale loads included, keeps budget plus claims constant |
| RenderBudget.BudgetIsConserved | crates/crw-crawl/src/sitemap.rs:388-404 | in every reachable state remaining budget plus claimed slots is the initial budget, the budget never grows, and a task that gave up did so on a budget that is and stays zero |
| RenderBudget.FinishedRunsRenderMin | crates/crw-crawl/src/sitemap.rs:388-404 | when all tasks are done, exactly the smaller of tasks and budget have rendered |
| RenderBudget.StepLowersRank | crates/crw-crawl/src/sitemap.rs:391-404 | every step but a spurious failure lowers a measure |
| RenderBudget.RealStepsAreBounded | crates/crw-crawl/src/sitemap.rs:391-404 | so a run has at most tasks times budget plus one steps that are not spurious failures |
| RenderBudget.NeverStuck | crates/crw-crawl/src/sitemap.rs:391-404 | and an unfinished run can always take one |
| Crawl.PageVerdict | crates/crw-crawl/src/crawl.rs:557-633 | what becomes of a page, from its own fields: a wall the classifier names, or an origin's small error page, or the renderer carried for a small body, is reported and the body dropped; else a small page with an error status is reported and kept; anything else is unmarked; and only an unmarked body goes to the model |
| Crawl.FailureVerdict | crates/crw-crawl/src/crawl.rs:352-424 | what becomes of a URL without a page: an empty document with the status there was and the verdict or reason |
| Crawl.BilledDocumentsAreRealPages | crates/crw-core/src/types.rs:836-853 | a document without a block is a page that is no origin error; walls carry no body; only unblocked documents reach the model |
| Crawl.AdmitIsExact | crates/crw-crawl/src/crawl.rs:103-147 | links are admitted one level deeper, once per key, only same-origin safe non-assets, within the cap, and below the cap none is left out |
| Crawl.PageKeepsLayered | crates/crw-crawl/src/crawl.rs:317-442 | queued depths never fall, never pass the limit, and span at most one level |
| Crawl.PageKeepsDiscovered | crates/crw-crawl/src/crawl.rs:432-442 | every queued URL was followed from a page taken earlier, one level up |
| Crawl.PageKeepsClosed | crates/crw-crawl/src/crawl.rs:432-442 | below the cap, every link followed so far is queued no deeper than it could be |
| Crawl.PageKept | crates/crw-crawl/src/crawl.rs:317-648 | one page taken keeps the whole invariant of the crawl |
| Crawl.DocumentsAreCounted | crates/crw-crawl/src/crawl.rs:317-424 | each page taken gives one document, or none because robots refused it |
| Crawl.ReportedAdvances | crates/crw-crawl/src/crawl.rs:636-657 | along the published states no counter falls, and blocked <= completed <= total in each |
| Crawl.ResultsStayBelowTheCap | crates/crw-crawl/src/crawl.rs:318-320 | with a positive cap the check at the head of the loop never fires |
| Crawl.CrawlFindsShortestDistances | crates/crw-crawl/src/crawl.rs:306-648 | if links depend on the key alone and the cap is not reached, exactly the keys within `max_depth` links are visited, each at its shortest distance |
| Crawl.CrawlAccountsForEveryPage | crates/crw-crawl/src/crawl.rs:306-658 | a crawl that empties its queue ends with total = completed + refused, and the documents of all its pages |
| Crawl.Clamped | crates/crw-crawl/src/crawl.rs:225-226 | a request, or else the default, is taken as it is up to the ceiling, and becomes the ceiling above it |
| Crawl.CrawlSite | crates/crw-crawl/src/crawl.rs:197-658 | a crawl from a valid seed keeps the whole invariant for what it returns, with the clamped limits; it takes every queued page unless cut; its published counters never fall, one state per document, and the last is Completed and holds them all |
| Crawl.DistanceIsShortestWalk | crates/crw-crawl/src/crawl.rs:306-648 | distances are lengths of shortest walks along links |
| Crawl.Crawler.constructor | crates/crw-crawl/src/crawl.rs:225-312 | a crawl starts empty, with nothing taken off the queue and clamped limits |
| Crawl.Crawler.EnqueueDiscoveredLinks | crates/crw-crawl/src/crawl.rs:103-147 | the loop appends to the queue exactly the admitted links and keeps the visited set the set of their keys |
| Crawl.Crawler.SendProgress | crates/crw-crawl/src/crawl.rs:636-647 | one state is published, with the current counters and no data |
| Crawl.Crawler.PushFailedPage | crates/crw-crawl/src/crawl.rs:173-194 | one document, one blocked page and one published state more |
| Crawl.Crawler.RecordAnswer | crates/crw-crawl/src/crawl.rs:340-648 | every kind of answer adds exactly its links, its one document, its block to the counter, and one published state |
| Crawl.Crawler.TakePage | crates/crw-crawl/src/crawl.rs:317-648 | a turn keeps the invariant, lowers cap - visited + queued, and ends the crawl, changing nothing, only for a zero cap or for a page that robots allows and the closed semaphore does not |
| Crawl.Crawler.Run | crates/crw-crawl/src/crawl.rs:306-658 | every run ends with one Completed state as its last, one progress state per document before it, the crawl's invariant, and an empty queue unless cut short; an invalid seed publishes one Failed state |
| MapDiscovery.UrlCap | crates/crw-crawl/src/crawl.rs:795-799 | a request in range is the cap, zero or more than the ceiling is the ceiling |
| MapDiscovery.AddSitemapPages | crates/crw-crawl/src/crawl.rs:1083-1091 | the base URL and the first sitemap pages, all of them unless these fill the cap |
| MapDiscovery.MergePage | crates/crw-crawl/src/crawl.rs:1227-1274 | the loop over a landed page's links, with its early exit at the cap, computes `AddLinks` |
| MapDiscovery.AddLinksGrows | crates/crw-crawl/src/crawl.rs:1227-1274 | what a merge adds is new, reported, within the cap, queued once, and queued only where robots allows |
| MapDiscovery.AddLinksAddsAll | crates/crw-crawl/src/crawl.rs:1227-1274 | below the cap a merge adds every listed key and queues exactly the fetchable ones, a set in which no order occurs |
| MapOrder.AddLinksQueues | crates/crw-crawl/src/crawl.rs:1227-1274 | below the cap a merge queues a key if and only if it is new, may be fetched, and its first listing is as a page |
| MapOrder.LandingQueues | crates/crw-crawl/src/crawl.rs:1212-1274 | over a level the first page, in order of landing, that lists the key decides |
| MapOrder.NextAgreesIff | crates/crw-crawl/src/crawl.rs:1212-1274 | all orders of landing queue the same pages if and only if the level's pages agree on the status of every new key that may be fetched |
| MapOrder.OrdersLeadToSameState | crates/crw-crawl/src/crawl.rs:1212-1274 | where a level agrees on statuses, its orders of landing lead to states that differ at most in the order of the frontier |
| MapOrder.AgreementDecidesResult | crates/crw-crawl/src/crawl.rs:1153-1286 | where the pages agree at every level reached, all uncut runs report the same |
| MapOrder.OneResult | crates/crw-crawl/src/crawl.rs:1153-1286 | so there is exactly one set that uncut runs report |
| MapOrder.OrderDecidesResult | crates/crw-crawl/src/crawl.rs:70-88 | two uncut runs over one site that differ only in the order of landing report different URLs |
| MapDiscovery.LevelContinues | crates/crw-crawl/src/crawl.rs:1153-1276 | a level landing in any order leads to results that the crawl could report from the start |
| MapDiscovery.UncutCrawlCanReport | crates/crw-crawl/src/crawl.rs:1153-1286 | an uncut crawl reports what some orders of landing give, level by level |
| MapDiscovery.MergeLevel | crates/crw-crawl/src/crawl.rs:1153-1275 | a level comes to the merges, in some order of landing, of all its pages or of those that landed before the cap was hit or the clock first said so; it grows the state soundly, and unless cut adds exactly the keys its pages list |
| MapDiscovery.PlanGrows | crates/crw-crawl/src/crawl.rs:1123-1276 | every page planned after the seed is new, reported, allowed, and under a key of its own that is not the seed's |
| MapDiscovery.NextLevel | crates/crw-crawl/src/crawl.rs:1248-1273 | the new fetchable keys of a level are the pages it leads to, save those earlier levels led to |
| MapDiscovery.ExactGrows | crates/crw-crawl/src/crawl.rs:1153-1276 | without a cut, a level extends the fetched pages from all within `d` hops to all within `d + 1` |
| MapDiscovery.ExactAtEnd | crates/crw-crawl/src/crawl.rs:1153-1286 | without a cut, the result is a closed form in which no order occurs |
| MapDiscovery.AddLinksQueuesPages | crates/crw-crawl/src/crawl.rs:1258-1273 | a merge queues no static asset, and nothing beyond the depth limit |
| MapDiscovery.BoundedGrows | crates/crw-crawl/src/crawl.rs:1153-1286 | whatever is cut, a level fetches only pages within reach and finds only keys these list |
| MapDiscovery.EveryOrderFindsEverything | crates/crw-crawl/src/crawl.rs:1180-1286 | if all there is to find fits under the cap and the clock does not run out, every order of landing reports exactly that |
| MapDiscovery.LevelEndContinues | crates/crw-crawl/src/crawl.rs:1214-1286 | a level under the clock leads to results that the crawl could report from the start under that clock |
| MapDiscovery.CrawlPhase | crates/crw-crawl/src/crawl.rs:1123-1286 | for every order: at most the cap, no dedup key fetched twice, every fetched page but the seed reported and allowed, nothing out of reach; cut or not, what the pages list that land while there is room and time, level by level; without cap or clock, exactly the closed form if asset status goes by key |
| MapDiscovery.DiscoverUrls | crates/crw-crawl/src/crawl.rs:776-1294 | the base URL is in the result and the result within the cap; the sitemap phase takes its pages in order up to the cap, the crawl phase all that lands while there is room and time; if all there is to find fits and the clock does not run out, the result is exactly that set, whatever the order |
| Normalize.NormalizeOfParts | crates/crw-crawl/src/url_filter.rs:207-236 | the whole effect on the parts of a URL: scheme and host lowered, trailing slashes gone, userinfo, port, path and query kept; a URL without a rest loses its separator |
| Normalize.AsciiFolds | crates/crw-crawl/src/url_filter.rs:228 | the assumptions on lowering a host are met by folding ASCII letters |
| Normalize.HostLength | crates/crw-crawl/src/url_filter.rs:219-226 | the host ends within the authority |
| Normalize.HostEndsRightAt | crates/crw-crawl/src/url_filter.rs:219-226 | the cut leaves a bracketed host up to its first bracket's end, any other up to the last colon |
| Normalize.PartsOfCompose | crates/crw-crawl/src/url_filter.rs:210-227 | the offsets recover well-formed parts from the URL they compose, across userinfo, brackets, ports and missing paths |
| Normalize.ComposePartsOf | crates/crw-crawl/src/url_filter.rs:228-235 | the pieces at those offsets compose to the URL |
| Normalize.PartsOfAreWellFormed | crates/crw-crawl/src/url_filter.rs:210-227 | every fragment-free text with a separator splits into well-formed parts |
| Normalize.CoreOfParts | crates/crw-crawl/src/url_filter.rs:210-235 | on trimmed text the code's concatenation is the composition of the folded parts |
| Normalize.ComposeIsInjective | crates/crw-crawl/src/url_filter.rs:210-235 | different well-formed parts are different URLs |
| Normalize.FoldedIsWellFormed | crates/crw-crawl/src/url_filter.rs:228-233 | lowering scheme and host moves no boundary between parts |
| Normalize.SameKeyIffSameParts | crates/crw-crawl/src/url_filter.rs:207-236 | two URLs share a key if and only if they agree on folded scheme and host, userinfo, port and trimmed path and query |
| Normalize.CaseOfSchemeAndHostIsIgnored | crates/crw-crawl/src/url_filter.rs:228-232 | spellings that differ only in the case of ASCII letters of scheme and host share a key |
| Normalize.SameKeyIffSpeltAlike | crates/crw-crawl/src/url_filter.rs:207-236 | with ASCII folding, two URLs share a key if and only if they are the same but for that and trailing slashes |
| Normalize.CaseIsIgnoredIff | crates/crw-crawl/src/url_filter.rs:207-236 | spellings that differ in scheme and host case share a key if and only if something follows the separator or the scheme is spelt alike |
| Normalize.BareSchemesKeepTheirCase | crates/crw-crawl/src/url_filter.rs:208-212 | two spellings of a URL without a rest get different keys |
| Normalize.FragmentIgnored | crates/crw-crawl/benches/map_url_filter.rs:17-18 | a fragment never changes the key, for every text |
| Normalize.TrailingSlashIgnored | crates/crw-crawl/benches/map_url_filter.rs:19 | a slash at the end never changes the key, for every text |
| Normalize.NormalizeTwice | crates/crw-crawl/benches/map_url_filter.rs:17-46 | a key is its own key, for every text |
| CacheKey.BuildKey | crates/crw-crawl/src/page_cache.rs:124-143 | the pushes concatenate the six length-prefixed fields |
| CacheKey.DecimalHasValue | crates/crw-crawl/src/page_cache.rs:125-131 | a printed length reads back as itself |
| CacheKey.TakeFieldUndoesField | crates/crw-crawl/src/page_cache.rs:125-131 | one field is read back exactly, whatever digits, colons or bars it and what follows contain |
| CacheKey.TakeFieldsUndoesFields | crates/crw-crawl/src/page_cache.rs:124-143 | so is any list of fields |
| CacheKey.ReadKeyUndoesKeyOf | crates/crw-crawl/src/page_cache.rs:124-143 | a decoder recovers every key input, up to an empty pin |
| CacheKey.SameKeyIffSameInputs | crates/crw-crawl/src/page_cache.rs:124-143 | equal keys if and only if equal inputs, up to an empty pin |
| CacheKey.PinnedName | crates/crw-core/src/types.rs:133-143 | no renderer's pin is the empty name |
| CacheKey.SameKeySameInputs | crates/crw-crawl/src/page_cache.rs:107-143 | so for pins that requests can name, equal keys mean equal inputs |
| PageCache.BucketsAreOrdered | crates/crw-crawl/src/page_cache.rs:87-96 | the order of buckets is the order of budgets, up to budgets that share a bucket |
| PageCache.NoTighterIff | crates/crw-crawl/src/page_cache.rs:87-96 | buckets part at two, five, fifteen and sixty seconds |
| PageCache.Cache.Lookup | crates/crw-crawl/src/page_cache.rs:201-217 | a reader gets the entry if and only if there is one, young enough and stored under a bucket at least its own, with the replay's duration |
| PageCache.Cache.Store | crates/crw-crawl/src/page_cache.rs:229-246 | what is written has a body, fits, and is dated and bucketed as told; no other entry changes |
| PageCache.SameInputsIffSameAsk | crates/crw-crawl/src/single.rs:167-204 | two requests share an entry if and only if they agree, field by field, on URL, wait, user agent, pinned renderer, JavaScript asked for, and whether an escalation is open to them |
| PageCache.EscalationIsKeyed | crates/crw-crawl/src/single.rs:103-193 | the key's escalation mark says whether an escalation is open, from the request's and the server's own fields |
| PageCache.CacheableIff | crates/crw-crawl/src/single.rs:167-185 | a request uses the cache if and only if nothing in it is personal or compares pages, and its limit and the server allow it |
| PageCache.PinnedNamesDiffer | crates/crw-core/src/types.rs:133-143 | distinct renderers have distinct pins, and only auto has none |
| PageCache.EntryBytesAre | crates/crw-crawl/src/page_cache.rs:163-179 | the size of an entry is the length of all its text |
| PageCache.RepeatIsServed | crates/crw-crawl/src/single.rs:167-217 | a sound page that may be shared and fits is served again, while recent, to whoever asks for the same with no roomier a budget |
| PageCache.Inputs | crates/crw-crawl/src/single.rs:194-204 | a request's key inputs never have an empty pin |
| PageCache.LookupIsOk | crates/crw-crawl/src/single.rs:167-217 | a hit under a reader's key is a sound body that an anonymous fetch with the same inputs returned within the reader's age limit, under a bucket at least the reader's |
| PageCache.ArriveKeepsInv | crates/crw-crawl/src/single.rs:167-217 | reading keeps the cache's invariant |
| PageCache.FetchKeepsInv | crates/crw-crawl/src/single.rs:283-293 | a snapshot is what the network just returned to this request |
| PageCache.EscalationKeepsInv | crates/crw-crawl/src/single.rs:845-880 | an accepted render leaves a body that the network returned to this request |
| PageCache.StoredIsOk | crates/crw-crawl/src/single.rs:845-918 | whatever is stored was returned to an anonymous fetch with the entry's inputs, no earlier than its date, under its writer's bucket, and not by a plain replay |
| PageCache.CommitKeepsInv | crates/crw-crawl/src/single.rs:845-918 | storing keeps the cache's invariant |
| PageCache.StepKeepsInv | crates/crw-crawl/src/page_cache.rs:201-246 | so does every step: arrivals, fetches, escalations, commits, abandoned requests, evictions, ticks |
| PageCache.HitIsAsPromised | crates/crw-crawl/src/page_cache.rs:201-217 | the promise in the reader's own terms: nothing personal, a whole sound page, returned by the network to a request that asked, field by field, for the same, no longer ago than the reader's own limit or a day, rendered only if an escalation is open to the reader, and written with no tighter a budget as far as it matters |
| PageCache.HitsAgreeWithTheNetwork | crates/crw-crawl/src/page_cache.rs:201-246 | in every run, every hit ever served keeps that promise |
| PageCache.FactsAreInTime | crates/crw-crawl/src/single.rs:845-918 | the status, final URL and warning of a hit whose request cannot escalate came from the network within the reader's limit |
| PageCache.StaleFactsIff | crates/crw-crawl/src/single.rs:845-918 | some run serves a request facts older than its limit if and only if it is cacheable, may escalate, and its key leaves room for a body |
| PageCache.StaleRun | crates/crw-crawl/src/single.rs:856-876 | that run, for every such request: stored, read at the last moment, escalated, stored anew, read again |
| PageCache.EscalatedHitRedatesFacts | crates/crw-crawl/src/single.rs:856-876 | in any state, a hit that escalates stores the old entry's status, final URL and warning under a new date |
| PageCache.ReplayDoesNotRewrite | crates/crw-crawl/src/single.rs:845-918 | in every run, a hit that did not escalate changes no entry, and a commit that does is of a usable page that may be shared and dates the entry by its own fetch |
| DepthFirst.ExploreChild | scripts/release/preflight.py:104-119 | one recursive call with the shared visited set keeps: everything newly visited is reachable, and all but the root is closed |
| DepthFirst.SearchFromScratchIsReachability | scripts/release/preflight.py:104-119 | a search from an empty set visits exactly what is reachable, cycles included |
| Preflight.EntryForms | scripts/release/preflight.py:86-92 | what `dep:` entries and plain names say |
| Preflight.PathEntryForms | scripts/release/preflight.py:88-90 | an entry with a slash names the dependency before it, marked weak or not |
| Preflight.AliasMapIs | scripts/release/preflight.py:66-72 | the table holds every name some dependency goes by, and the last one decides |
| Preflight.FeatureWalk.Expand | scripts/release/preflight.py:82-92 | the recursive walk explores the feature graph and collects exactly what the features it newly saw pull in |
| Preflight.OneHopDefaultPull | scripts/release/preflight.py:75-101 | the dependencies named by all features reachable from `default`, weak entries included, and the unconditional ones, all through the alias table |
| Preflight.DefaultPullsAreAll | scripts/release/preflight.py:82-94 | the finite set that is computed holds exactly what some feature reachable from `default` pulls |
| Preflight.TransitiveDefaultChain | scripts/release/preflight.py:104-119 | the recursion terminates, explores the package graph, and returns what the packages it newly visited pull in |
| Preflight.DefaultChain | scripts/release/preflight.py:104-119 | for a root, exactly what is pulled in over one or more default edges through workspace packages |
| Preflight.RightForAllFeaturesIff | scripts/release/preflight.py:66-101 | the code gives the real dependencies for every feature table whose weak entries are backed if and only if the alias table maps the unconditional dependencies to themselves |
| Preflight.RightIffWeakPullsAreReal | scripts/release/preflight.py:88-90 | with such a table it reports no less than is real, and no more if and only if what is only named weakly is pulled otherwise |
| Preflight.WeakEntryIsReported | scripts/release/preflight.py:88-90 | a feature table whose one weak entry is reported although it pulls nothing |
| Preflight.SoundTableIff | scripts/release/preflight.py:66-101 | that condition, read from pairs of dependencies: each unconditional one is read as one, and each is what one is read as |
| Preflight.SoundTablesMissNothing | scripts/release/preflight.py:104-119 | with that condition throughout the workspace, the chain holds everything packages really need |
| Preflight.SoundTablesGiveTheRealChain | scripts/release/preflight.py:104-119 | and nothing else, where weak entries are backed |
| Preflight.RightWithoutClashes | scripts/release/preflight.py:66-101 | it holds if no dependency is renamed to another's name |
| Preflight.RenamedDependencyIsMissed | scripts/release/preflight.py:96-101 | two dependencies for which it reports the wrong one |
| Preflight.CheckDefaults | scripts/release/preflight.py:167-177 | an error for exactly the published packages that pull in unpublished ones, naming exactly those |
| Preflight.CheckTiers | scripts/release/preflight.py:179-200 | an error for exactly the dependencies that are not in an earlier tier |
| Preflight.TiersOrderPublishing | scripts/release/preflight.py:179-200 | with none, everything a crate needs, however indirectly, is published before it, and there is no cycle |
| Redact.SchemesAreTheStandards | crates/crw-core/src/proxy.rs:14-18 | what counts as a scheme is what section 3.1 of RFC 3986 says |
| Redact.RedactUrlUserinfo | crates/crw-core/src/proxy.rs:40-58 | the scanner terminates and equals masking each whitespace-separated word on its own |
| Redact.ScanStep | crates/crw-core/src/proxy.rs:43-56 | one turn, which finds a URL by its separator, does to the text what masking its word does |
| Redact.MaskWordsConcat | crates/crw-core/src/proxy.rs:31-39 | text that ends between words is masked independently of what follows |
| Redact.NoUrlUnchanged | crates/crw-core/src/proxy.rs:40-58 | text without `://` is left alone |
| Redact.MaskKeepsOnlyLeadSchemeAndHost | crates/crw-core/src/proxy.rs:9-29 | in a word with userinfo the output is the text before the URL, the scheme if it is one, the mask, and what follows the last `@` |
| Redact.UserinfoNeverShows | crates/crw-core/src/proxy.rs:31-58 | changing the userinfo of any word of any text changes nothing in the output |
| Redact.MaskWordTwice | crates/crw-core/src/proxy.rs:9-58 | a masked word is a word, and masking it again changes nothing |
| Redact.MaskWordsTwice | crates/crw-core/src/proxy.rs:31-58 | masking is idempotent on every text |
| Usage.LlmUsage.Merge | crates/crw-core/src/types.rs:555-596 | the field updates, with the input and hits captured before they change, fold the other leg in, its cost included |
| Usage.Slot.Accumulate | crates/crw-core/src/types.rs:599-605 | an empty slot is seeded, a full one merged into in place, and an absent leg changes nothing |
| Usage.MergeKeepsTotal | crates/crw-core/src/types.rs:555-614 | merging one more leg into a total of legs gives the total of all |
| Usage.FoldIsTotal | crates/crw-core/src/types.rs:555-614 | for every list of legs the counters are the sums capped at 2^32 - 1, the flags the disjunctions, the cost the sum of those reported, the labels the first leg's, and the calls one per leg at least, the first excepted |
| Usage.TotalsInAnyOrder | crates/crw-core/src/types.rs:546-554 | tokens, summaries, flags and cache hits are the same for every order of the legs |
| Usage.CallsAgreeIff | crates/crw-core/src/types.rs:561 | two orders agree on the calls if and only if both or neither start with a leg of no calls, or the count saturates |
| Usage.CallsDependOnOrder | crates/crw-core/src/types.rs:561 | two legs whose call count depends on their order |
| Usage.MergeAddsMissesIff | crates/crw-core/src/types.rs:576-588 | for any two legs, effective misses add up, to the cap, if and only if a side reports misses, or neither has any, or neither claims more hits than input and their input stays below the cap, or the count saturates |
| Usage.FoldPoolsMisses | crates/crw-core/src/types.rs:570-588 | what folding makes of the misses of any list of legs: those before the first report are pooled into one capped leg, from there on each counts for itself |
| Usage.PooledMissBounds | crates/crw-core/src/types.rs:570-588 | no order misses less than pooling all legs without a report, none more than the sum |
| Usage.ExtremeOrders | crates/crw-core/src/types.rs:570-588 | and both bounds are reached |
| Usage.LeastIsAllIff | crates/crw-core/src/types.rs:570-588 | the bounds coincide if and only if no silent leg has misses, or none has excess hits to set off against them and their input stays below the cap |
| Usage.MissesAgreeIff | crates/crw-core/src/types.rs:570-588 | for any legs, all orders give the same misses if and only if none reports any, or the two bounds coincide, or even the lower one saturates |
| Usage.MissesAddUpIff | crates/crw-core/src/types.rs:570-588 | for any legs in a given order, the misses are the capped sum if and only if pooling those before the first report keeps theirs, or the count saturates |
| Usage.MissesAddUp | crates/crw-core/src/types.rs:570-588 | so they are if no leg's hits exceed its input and the input of those that report no miss count stays below the cap |
| Usage.MissesFallShortPastTheCap | crates/crw-core/src/types.rs:570-588 | two legs with hits within input whose misses do not add up |
| Usage.CacheSplitIsKept | crates/crw-core/src/types.rs:570-588 | with input below the cap, hits plus misses stay the input, whichever legs report which, and every order gives the same misses |
| Usage.MissesDependOnOrder | crates/crw-core/src/types.rs:576-588 | three legs, one with more hits than input and one that reports misses, whose misses depend on their order |
| Deadlines.CdpTierCount | crates/crw-core/src/config.rs:980-1002 | the number of browser tiers that are built in, wanted and configured |
| Deadlines.MinDeadlineForFullLadderMs | crates/crw-core/src/config.rs:1009-1057 | the saturating sums come to the exact sum of all active tiers' allowances, capped once at 2^64 - 1 |
| Deadlines.AddCdpTiers | crates/crw-core/src/config.rs:1034-1057 | the browser half adds timeout and overhead of each active browser tier |
| Deadlines.LadderCountsTiers | crates/crw-core/src/config.rs:1004-1057 | the ladder is all timeouts plus one overhead and one extra wait for exactly the tiers counted |
| Deadlines.EffectiveDeadlineMs | crates/crw-core/src/config.rs:1655-1699 | an explicit deadline verbatim; else the default, or the ladder in which every browser tier waits longer, if that is more and applies |
| Deadlines.InnerGrowsWithWait | crates/crw-core/src/config.rs:1680-1698 | the inner deadline never falls with a longer wait and is constant above sixty seconds |
| Deadlines.InnerGrowsWithTiers | crates/crw-core/src/config.rs:1009-1057 | configuring another tier, of any kind, never shortens the inner deadline |
| Deadlines.FullLadderFitsIff | crates/crw-core/src/config.rs:1640-1654 | every active tier can use its full allowance if and only if the default has room, or extension is on, a browser tier is active and the sum does not saturate |
| Deadlines.HttpOnlyLadderIsNotCovered | crates/crw-core/src/config.rs:1669-1677 | a configuration without a browser tier whose ladder is longer than its deadline |
| Deadlines.LongestWaitDecides | crates/crw-core/src/config.rs:1717-1724 | a timeout encloses every implicit deadline if and only if it encloses the one for the longest wait |
| Deadlines.EffectiveRequestTimeoutSecs | crates/crw-core/src/config.rs:1709-1739 | with extension on, the outer timeout encloses every implicit inner deadline, the search and the map ceiling with five seconds to spare, saturated or not, and is no longer than that takes; with it off, it is the operator's |

## Left out

- Fetching, rendering, PDF conversion and model calls: what they return is a parameter (`answer`, `page`, `fetch`) or a
  step that may return anything.
- HTML, XML and URL parsing: a link comes with its verdicts (safe, same origin, asset) and its key, a sitemap with its
  entries, a site with its key.
- Fetching robots.txt: status handling, the size cap and the query joined to the path before matching.
- Offsets are counted in characters, where the source counts UTF-8 bytes; all cuts are at ASCII characters.
- Normalize.NormalizeOfParts: the lowering of the host is any character-by-character mapping with the listed properties; that a
  final Greek sigma is lowered by its context is not modelled.
- The map's URL filter: the model takes its outputs as given and assumes them to be their own keys where it says so;
  its counters and the final sort are not modelled.
- The clock of the map and of the sitemap walk: an arbitrary answer to the question whether it is late. The arithmetic
  of `discovery_deadline` and `remaining_budget` is not modelled.
- The pages of one discovery are a function of their URL; as none is fetched twice, this matters only where two orders
  are compared. The crawl, which may see a different answer each time, does not assume it.
- Wall classification, the parked-domain test and the decision to accept an escalation: verdicts are parameters.
- The cache's own eviction policy: any entry may be evicted at any time. Its entries are values, so a stored body
  shared between readers cannot be changed by one of them.
- Rate limits and concurrency limits: they bound how many fetches run at once, and no result proved here depends on it.
- RenderBudget.StepKeepsInv: a load returns any value the atomic has had that is not older than the task's last; this is all that
  the relaxed ordering of one variable promises.
- Usage.LlmUsage.Merge: the cost estimate is an exact number; the rounding of floating-point sums is not modelled.
- PageCache.EscalationKeepsInv: a render is recorded as an escalation of its request; that the source asks for it with
  JavaScript on, and which tier it goes to, is not recorded.
- Deadlines.MinDeadlineForFullLadderMs: the residential-proxy tier is not part of the ladder in the source, and so not here.
- An explicit request deadline is passed through, and nothing bounds it by the outer timeout.
- The release check's other tests, which compare file contents and version strings.
- Metrics, logging, serialisation, configuration loading and the command line.
